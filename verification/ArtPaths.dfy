/** The key bytes a path of the radix tree spells, and single steps down the tree. */
module ArtPaths {
  import opened ArtNodes
  import opened ArtTree
  import opened ArtPatches

  // ---------- the bytes a path spells ----------

  /** The path without its steps past end nodes, which are where they stand. */
  function Erase(p: Path): (q: Path)
    ensures |q| <= |p|
  {
    if |p| == 0 then []
    else
      var last := p[|p| - 1];
      Erase(p[..|p| - 1]) + (if last == Pass then [] else [last])
  }

  lemma {:induction false} EraseConcat(p: Path, q: Path)
    ensures Erase(p + q) == Erase(p) + Erase(q)
  {
    if |q| == 0 {
      assert p + q == p;
    } else {
      var r := q[..|q| - 1];
      assert (p + q)[..|p + q| - 1] == p + r;
      EraseConcat(p, r);
    }
  }

  lemma {:induction false} EraseBytes(s: seq<Byte>)
    ensures Erase(Bytes(s)) == Bytes(s)
  {
    if |s| > 0 {
      assert Bytes(s)[..|s| - 1] == Bytes(s[..|s| - 1]);
      EraseBytes(s[..|s| - 1]);
    }
  }

  /** The path spells these key bytes within one field. */
  ghost predicate Spells(p: Path, key: seq<Byte>) { Erase(p) == Bytes(key) }

  lemma {:induction false} BytesConcat(key: seq<Byte>, more: seq<Byte>)
    ensures Bytes(key + more) == Bytes(key) + Bytes(more)
  {
  }

  lemma {:induction false} SpellsMore(p: Path, key: seq<Byte>, more: seq<Byte>)
    requires Spells(p, key)
    ensures Spells(p + Bytes(more), key + more)
  {
    EraseConcat(p, Bytes(more));
    EraseBytes(more);
    BytesConcat(key, more);
  }

  lemma {:induction false} SpellsPass(p: Path, key: seq<Byte>)
    requires Spells(p, key)
    ensures Spells(p + [Pass], key)
  {
    assert (p + [Pass])[..|p|] == p;
  }

  /** Where a walk from `base` along the key bytes stands at `l`. */
  ghost predicate Along(g: Labels, base: Loc, key: seq<Byte>, l: Loc) {
    && base in g.path && l in g.path && g.path[base] <= g.path[l]
    && Spells(g.path[l][|g.path[base]|..], key)
  }

  /** The slot where the field ends: the path from `base` spells it and does not end past an end node. */
  ghost predicate Arrives(g: Labels, base: Loc, key: seq<Byte>, l: Loc) {
    Along(g, base, key, l) && (l == base || (g.path[l] != [] && g.path[l][|g.path[l]| - 1] != Pass))
  }

  /** A complete key ends before the field does; it has no slots below. */
  ghost predicate Blocks(s: Art, g: Labels, base: Loc, key: seq<Byte>, l: Loc) {
    Content(s, l) == KeyEnd && exists k: nat :: k < |key| && Along(g, base, key[..k], l)
  }

  lemma {:induction false} AlongDown(g: Labels, base: Loc, key: seq<Byte>, l: Loc, l': Loc, more: seq<Byte>)
    requires Along(g, base, key, l) && l' in g.path && g.path[l'] == g.path[l] + Bytes(more)
    ensures Along(g, base, key + more, l')
  {
    var u := |g.path[base]|;
    SpellsMore(g.path[l][u..], key, more);
    assert g.path[l'][u..] == g.path[l][u..] + Bytes(more);
  }

  lemma {:induction false} AlongPass(g: Labels, base: Loc, key: seq<Byte>, l: Loc, l': Loc)
    requires Along(g, base, key, l) && l' in g.path && g.path[l'] == g.path[l] + [Pass]
    ensures Along(g, base, key, l')
  {
    var u := |g.path[base]|;
    SpellsPass(g.path[l][u..], key);
    assert g.path[l'][u..] == g.path[l][u..] + [Pass];
  }

  lemma {:induction false} BytesInTwo(up: Path, bytes: seq<Byte>, idx: nat)
    requires idx <= |bytes|
    ensures up + Bytes(bytes[..idx]) + Bytes(bytes[idx..]) == up + Bytes(bytes)
  {
    assert Bytes(bytes[..idx]) + Bytes(bytes[idx..]) == Bytes(bytes);
  }

  lemma {:induction false} FirstAndRest(up: Path, bytes: seq<Byte>)
    requires |bytes| > 0
    ensures up + [B(bytes[0])] + Bytes(bytes[1..]) == up + Bytes(bytes)
  {
    assert [B(bytes[0])] + Bytes(bytes[1..]) == Bytes(bytes);
  }

  // ---------- one step down ----------

  /** The child slots of the node a slot refers to, with their labels. */
  lemma {:induction false} ChildLabel(s: Art, g: Labels, l: Loc, i: nat)
    requires Valid(s, g) && l in g.path && IsRef(Content(s, l))
    requires HasChild(s.nodes[Content(s, l).addr], i)
    ensures var a := Content(s, l).addr;
            && a in s.nodes && NodeOk(s.nodes[a]) && In(a, i) in g.path && g.path[l] < g.path[In(a, i)]
            && EdgeIs(s.nodes[a], i, g.path[In(a, i)][|g.path[l]|..])
            && g.path[In(a, i)] == g.path[l] + g.path[In(a, i)][|g.path[l]|..]
  {
    var a := Content(s, l).addr;
    assert Live(s, In(a, i));
    ChildLonger(s, g, l, a, i);
    PrefixRest(g.path[l], g.path[In(a, i)]);
  }

  lemma {:induction false} RadixStep(s: Art, g: Labels, l: Loc, i: nat, b: Byte)
    requires Valid(s, g) && l in g.path && IsRef(Content(s, l))
    requires var n := s.nodes[Content(s, l).addr]; IsRadix(n) && HasChild(n, i) && ByteOf(n, i, b)
    ensures var c := In(Content(s, l).addr, i); c in g.path && g.path[c] == g.path[l] + Bytes([b])
  {
    ChildLabel(s, g, l, i);
    var a := Content(s, l).addr;
    var e := g.path[In(a, i)][|g.path[l]|..];
    EdgesPart(s.nodes[a], i, i, e, [B(b)]);
  }

  lemma {:induction false} SpanStep(s: Art, g: Labels, l: Loc)
    requires Valid(s, g) && l in g.path && IsRef(Content(s, l)) && s.nodes[Content(s, l).addr].Span?
    ensures var a := Content(s, l).addr;
            In(a, 0) in g.path && g.path[In(a, 0)] == g.path[l] + Bytes(s.nodes[a].bytes)
  {
    ChildLabel(s, g, l, 0);
  }

  lemma {:induction false} EndStep(s: Art, g: Labels, l: Loc)
    requires Valid(s, g) && l in g.path && IsRef(Content(s, l)) && s.nodes[Content(s, l).addr].End?
    ensures var a := Content(s, l).addr;
            && In(a, 0) in g.path && g.path[In(a, 0)] == g.path[l] + [Next]
            && In(a, 1) in g.path && g.path[In(a, 1)] == g.path[l] + [Pass]
  {
    ChildLabel(s, g, l, 0);
    ChildLabel(s, g, l, 1);
  }

  /** The slots with longer labels: they bound every walk down. */
  ghost function Deeper(g: Labels, l: Loc): set<Loc>
    requires l in g.path
  {
    set x | x in g.path && |g.path[x]| > |g.path[l]|
  }

  lemma {:induction false} DeeperShrinks(g: Labels, l: Loc, l': Loc)
    requires l in g.path && l' in g.path && |g.path[l]| < |g.path[l']|
    ensures Deeper(g, l') < Deeper(g, l)
  {
    assert l' in Deeper(g, l) && l' !in Deeper(g, l');
  }
}
