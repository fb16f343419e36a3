/** Where a walk along a field comes to an end: one slot for every field, found or not. */
module ArtHalts {
  import opened ArtNodes
  import opened ArtTree
  import opened ArtPatches
  import opened ArtPaths

  // ---------- the next step ----------

  /** The walk with `off` bytes used cannot go on from the slot. */
  ghost predicate NoStep(s: Art, l: Loc, key: seq<Byte>, off: nat)
    requires off < |key|
  {
    var c := Content(s, l);
    !IsRef(c) || (c.addr in s.nodes && NodeStops(s.nodes[c.addr], key, off))
  }

  ghost predicate NodeStops(n: Node, key: seq<Byte>, off: nat)
    requires off < |key|
  {
    match n
    case End(_, _) => false
    case Span(bytes, _) => off + |bytes| > |key| || key[off..off + |bytes|] != bytes
    case _ => LacksByte(n, key[off])
  }

  /** The walk along the field halts at the slot with `off` bytes used: at its end, or where it cannot go on. */
  ghost predicate Halts(s: Art, g: Labels, base: Loc, key: seq<Byte>, off: nat, l: Loc) {
    && off <= |key| && Along(g, base, key[..off], l)
    && if off == |key| then Arrives(g, base, key, l) else NoStep(s, l, key, off)
  }

  // ---------- what a path has left of the key ----------

  lemma {:induction false} RestOfKey(u: Path, e: Path, v: Path, key: seq<Byte>, off: nat)
    requires off <= |key| && Erase(u) == Bytes(key[..off]) && Erase(u + e + v) == Bytes(key)
    ensures Erase(e) + Erase(v) == Bytes(key[off..])
  {
    hide Erase, Bytes;
    EraseConcat(u + e, v);
    EraseConcat(u, e);
    BytesConcat(key[..off], key[off..]);
    assert key == key[..off] + key[off..];
    var b := Bytes(key[..off]);
    assert b + (Erase(e) + Erase(v)) == b + Bytes(key[off..]);
    assert (b + (Erase(e) + Erase(v)))[|b|..] == Erase(e) + Erase(v);
    assert (b + Bytes(key[off..]))[|b|..] == Bytes(key[off..]);
  }

  /** What is left of the key below a slot of the walk. */
  lemma {:induction false} RestBelow(g: Labels, base: Loc, key: seq<Byte>, off: nat, l: Loc, r: Loc, e: Path, v: Path)
    requires off <= |key| && Along(g, base, key[..off], l) && Along(g, base, key, r) && g.path[r] == g.path[l] + e + v
    ensures Erase(e) + Erase(v) == Bytes(key[off..])
  {
    var b := |g.path[base]|;
    assert g.path[r][b..] == g.path[l][b..] + e + v;
    RestOfKey(g.path[l][b..], e, v, key, off);
  }

  lemma {:induction false} NextIsNoByte(e: Path, v: Path, key: seq<Byte>)
    requires Erase(e) + Erase(v) == Bytes(key)
    ensures e != [Next]
  {
    var w := Erase(e) + Erase(v);
    assert [Next][..0] == [] && Erase([Next]) == [Next];
    assert |w| > 0 ==> w[0].B?;
  }

  lemma {:induction false} KeyPrefix(m: seq<Byte>, v: Path, key: seq<Byte>, off: nat)
    requires off <= |key| && Erase(Bytes(m)) + Erase(v) == Bytes(key[off..])
    ensures off + |m| <= |key| && key[off..off + |m|] == m
  {
    EraseBytes(m);
    assert |Bytes(key[off..])| == |key| - off;
    forall i | 0 <= i < |m| ensures key[off + i] == m[i] {
      assert (Bytes(m) + Erase(v))[i] == Bytes(key[off..])[i];
    }
  }

  lemma {:induction false} OnlyPasses(u: Path, v: Path)
    requires Erase(v) == []
    ensures v == [] || (u + v)[|u + v| - 1] == Pass
  {
  }

  /** How many bytes a walk has used shows in its label. */
  lemma {:induction false} UsedBytes(g: Labels, base: Loc, key: seq<Byte>, l: Loc)
    requires Along(g, base, key, l)
    ensures |Erase(g.path[l][|g.path[base]|..])| == |key|
  {
  }

  lemma {:induction false} UsedMore(g: Labels, base: Loc, key: seq<Byte>, off: nat, l: Loc, o: nat, r: Loc)
    requires off <= |key| && o <= |key| && Along(g, base, key[..off], l) && Along(g, base, key[..o], r)
    requires g.path[l] <= g.path[r]
    ensures off <= o
  {
    var b := |g.path[base]|;
    UsedBytes(g, base, key[..off], l);
    UsedBytes(g, base, key[..o], r);
    assert g.path[r][b..] == g.path[l][b..] + g.path[r][|g.path[l]|..];
    EraseConcat(g.path[l][b..], g.path[r][|g.path[l]|..]);
  }

  // ---------- two walks along the same field ----------

  /** From one slot of the walk towards another one further down: the child, and the edge to it. */
  lemma {:induction false} TowardsSlot(
      s: Art, g: Labels, base: Loc, key: seq<Byte>, off: nat, l: Loc, o: nat, r: Loc)
    returns (i: nat, e: Path, v: Path)
    requires Valid(s, g) && off <= |key| && o <= |key| && Along(g, base, key[..off], l) && Along(g, base, key[..o], r)
    requires g.path[l] < g.path[r]
    ensures off <= o && IsRef(Content(s, l)) && Content(s, l).addr in s.nodes
    ensures var a := Content(s, l).addr;
            && NodeOk(s.nodes[a]) && HasChild(s.nodes[a], i) && EdgeIs(s.nodes[a], i, e)
            && In(a, i) in g.path && g.path[In(a, i)] == g.path[l] + e <= g.path[r]
    ensures Erase(e) + Erase(v) == Bytes(key[off..o])
  {
    UsedMore(g, base, key, off, l, o, r);
    ChildTowards(s, g, l, r);
    i, e := StepTowards(s, g, l, r);
    v := g.path[r][|g.path[l] + e|..];
    hide Valid;
    PrefixRest(g.path[l] + e, g.path[r]);
    assert key[..o][..off] == key[..off] && key[..o][off..] == key[off..o];
    RestBelow(g, base, key[..o], off, l, r, e, v);
  }

  lemma {:induction false} ChildTowards(s: Art, g: Labels, l: Loc, r: Loc)
    requires Valid(s, g) && l in g.path && r in g.path && g.path[l] < g.path[r]
    ensures l != r && Above(s, g, l, r)
  {
    PrefixIsAbove(s, g, l, r);
  }

  lemma {:induction false} StepTowards(s: Art, g: Labels, l: Loc, r: Loc) returns (i: nat, e: Path)
    requires Valid(s, g) && l in g.path && r in g.path && l != r && Above(s, g, l, r)
    ensures IsRef(Content(s, l)) && Content(s, l).addr in s.nodes
    ensures var a := Content(s, l).addr;
            && NodeOk(s.nodes[a]) && HasChild(s.nodes[a], i) && EdgeIs(s.nodes[a], i, e)
            && In(a, i) in g.path && g.path[In(a, i)] == g.path[l] + e <= g.path[r]
  {
    hide Above;
    var c := StepDown(s, g, l, r);
    AboveIsPrefix(s, g, c, r);
    assert EdgeOk(s, g, c) && Refers(Content(s, g.owner[c.addr]), c.addr, s.nodes[c.addr]) && Live(s, c);
    i, e := c.i, g.path[c][|g.path[l]|..];
    PrefixRest(g.path[l], g.path[c]);
  }

  lemma {:induction false} BytesNext(m: seq<Byte>, v: Path, key: seq<Byte>, off: nat, o: nat)
    requires off <= o <= |key| && Erase(Bytes(m)) + Erase(v) == Bytes(key[off..o])
    ensures off + |m| <= o && key[off..off + |m|] == m && Erase(Bytes(m)) == Bytes(key[off..off + |m|])
  {
    assert key[..o][off..] == key[off..o];
    KeyPrefix(m, v, key[..o], off);
    EraseBytes(m);
    assert key[..o][off..off + |m|] == key[off..off + |m|];
  }

  lemma {:induction false} PassNext(i: nat, e: Path, v: Path, key: seq<Byte>, off: nat, o: nat, next: Slot, pass: Slot)
    requires off <= o <= |key| && EdgeIs(End(next, pass), i, e) && i < 2 && Erase(e) + Erase(v) == Bytes(key[off..o])
    ensures e == [Pass] && i == 1 && Erase(e) == Bytes(key[off..off])
  {
    NextIsNoByte(e, v, key[off..o]);
    assert [Pass][..0] == [] && Erase([Pass]) == [];
  }

  /** An edge on the way spells the next bytes, and is not the one behind an end node. */
  lemma {:induction false} EdgeBytesAre(n: Node, i: nat, e: Path, v: Path, key: seq<Byte>, off: nat, o: nat) returns (m: nat)
    requires NodeOk(n) && HasChild(n, i) && EdgeIs(n, i, e) && off <= o <= |key| && Erase(e) + Erase(v) == Bytes(key[off..o])
    ensures match n
            case End(_, _) => e == [Pass] && i == 1
            case Span(bytes, _) => i == 0 && off + |bytes| <= o && key[off..off + |bytes|] == bytes
            case _ => off < o && ByteOf(n, i, key[off])
    ensures off <= m <= o && Erase(e) == Bytes(key[off..m])
  {
    hide Erase, NodeOk;
    if n.End? {
      PassNext(i, e, v, key, off, o, n.next, n.pass);
      m := off;
    } else if n.Span? {
      BytesNext(n.bytes, v, key, off, o);
      m := off + |n.bytes|;
    } else {
      var b := e[0].b;
      assert e == Bytes([b]);
      BytesNext([b], v, key, off, o);
      assert key[off..off + 1][0] == b;
      m := off + 1;
    }
  }

  /** The child on the way is along the field as well. */
  lemma {:induction false} ChildAlong(g: Labels, base: Loc, key: seq<Byte>, off: nat, l: Loc, m: nat, c: Loc, e: Path)
    requires off <= m <= |key| && Along(g, base, key[..off], l) && c in g.path && g.path[c] == g.path[l] + e
    requires Erase(e) == Bytes(key[off..m])
    ensures Along(g, base, key[..m], c)
  {
    var b := |g.path[base]|;
    assert g.path[c][b..] == g.path[l][b..] + e;
    EraseConcat(g.path[l][b..], e);
    assert key[..m] == key[..off] + key[off..m];
    BytesConcat(key[..off], key[off..m]);
  }

  /** Both ways lead to the same child. */
  lemma {:induction false} SameChild(n: Node, i: nat, j: nat, e: Path, f: Path, b: Byte)
    requires NodeOk(n) && HasChild(n, i) && HasChild(n, j) && EdgeIs(n, i, e) && EdgeIs(n, j, f)
    requires match n
             case End(_, _) => i == j
             case Span(_, _) => true
             case _ => ByteOf(n, i, b) && ByteOf(n, j, b)
    ensures i == j && e == f
  {
    if IsRadix(n) {
      EdgesPart(n, i, j, [B(b)], [B(b)]);
    }
    EdgesPart(n, i, j, e, f);
  }

  /** Of two slots along the same field one lies on the way to the other. */
  lemma {:induction false} OneWay(
      s: Art, g: Labels, base: Loc, key: seq<Byte>, p: nat, m: Loc, off: nat, l: Loc, o: nat, r: Loc)
    requires Valid(s, g) && p <= |key| && off <= |key| && o <= |key|
    requires Along(g, base, key[..p], m) && Along(g, base, key[..off], l) && Along(g, base, key[..o], r)
    requires g.path[m] <= g.path[l] && g.path[m] <= g.path[r]
    ensures g.path[l] <= g.path[r] || g.path[r] <= g.path[l]
    decreases |g.path[l]| - |g.path[m]|
  {
    if g.path[m] != g.path[l] && g.path[m] != g.path[r] {
      hide Along, Valid, NodeOk, EdgeIs, ByteOf, HasChild;
      var i, e, v := TowardsSlot(s, g, base, key, p, m, off, l);
      var j, f, w := TowardsSlot(s, g, base, key, p, m, o, r);
      var a := Content(s, m).addr;
      var q := EdgeBytesAre(s.nodes[a], i, e, v, key, p, off);
      var q' := EdgeBytesAre(s.nodes[a], j, f, w, key, p, o);
      SameChild(s.nodes[a], i, j, e, f, if p < |key| then key[p] else 0);
      EdgesPart(s.nodes[a], i, i, e, e);
      ChildAlong(g, base, key, p, m, q, In(a, i), e);
      OneWay(s, g, base, key, q, In(a, i), off, l, o, r);
    }
  }

  lemma {:induction false} NoStepFurther(
      s: Art, g: Labels, base: Loc, key: seq<Byte>, off: nat, l: Loc, o: nat, r: Loc)
    requires Valid(s, g) && off < |key| && NoStep(s, l, key, off) && o <= |key|
    requires Along(g, base, key[..off], l) && Along(g, base, key[..o], r)
    ensures !(g.path[l] < g.path[r])
  {
    hide Valid, NodeOk, EdgeIs;
    if g.path[l] < g.path[r] {
      var i, e, v := TowardsSlot(s, g, base, key, off, l, o, r);
      var m := EdgeBytesAre(s.nodes[Content(s, l).addr], i, e, v, key, off, o);
      assert false;
    }
  }

  /** Nothing along the field lies beyond the slot where the walk halts. */
  lemma {:induction false} NothingFurther(
      s: Art, g: Labels, base: Loc, key: seq<Byte>, off: nat, l: Loc, o: nat, r: Loc)
    requires Valid(s, g) && Halts(s, g, base, key, off, l) && off < |key| && o <= |key| && Along(g, base, key[..o], r)
    ensures g.path[r] <= g.path[l] && o <= off
  {
    StartAlong(g, base, key, off, l);
    NoStepFurther(s, g, base, key, off, l, o, r);
    OneWay(s, g, base, key, 0, base, off, l, o, r);
    UsedMore(g, base, key, o, r, off, l);
  }

  lemma {:induction false} StartAlong(g: Labels, base: Loc, key: seq<Byte>, off: nat, l: Loc)
    requires off <= |key| && Along(g, base, key[..off], l)
    ensures Along(g, base, key[..0], base)
  {
    assert g.path[base][|g.path[base]|..] == [];
  }

  /** A field ends in one slot at most. */
  lemma {:induction false} ArrivesOnce(s: Art, g: Labels, base: Loc, key: seq<Byte>, l: Loc, r: Loc)
    requires Valid(s, g) && Arrives(g, base, key, l) && Arrives(g, base, key, r)
    ensures l == r
  {
    assert key[..|key|] == key;
    StartAlong(g, base, key, |key|, l);
    OneWay(s, g, base, key, 0, base, |key|, l, |key|, r);
    if g.path[l] <= g.path[r] { ArrivesBelow(s, g, base, key, l, r); } else { ArrivesBelow(s, g, base, key, r, l); }
  }

  lemma {:induction false} ArrivesBelow(s: Art, g: Labels, base: Loc, key: seq<Byte>, l: Loc, r: Loc)
    requires Valid(s, g) && Arrives(g, base, key, l) && Arrives(g, base, key, r) && g.path[l] <= g.path[r]
    ensures l == r
  {
    hide Valid;
    var v := g.path[r][|g.path[l]|..];
    PrefixRest(g.path[l], g.path[r]);
    assert key[..|key|] == key && key[|key|..] == [];
    assert g.path[l] + v == g.path[l] + v + [];
    RestBelow(g, base, key, |key|, l, r, v, []);
    OnlyPasses(g.path[l], v);
    assert g.path[l] == g.path[r];
    LabelsDiffer(s, g, l, r);
  }

  /** The walk along a field halts in one slot, with as many bytes used. */
  lemma {:induction false} HaltsOnce(s: Art, g: Labels, base: Loc, key: seq<Byte>, off: nat, l: Loc, o: nat, r: Loc)
    requires Valid(s, g) && Halts(s, g, base, key, off, l) && Halts(s, g, base, key, o, r)
    ensures l == r && off == o
  {
    hide Valid, NoStep;
    assert key[..|key|] == key;
    if off < |key| { NothingFurther(s, g, base, key, off, l, o, r); }
    if o < |key| { NothingFurther(s, g, base, key, o, r, off, l); }
    if off == |key| { ArrivesOnce(s, g, base, key, l, r); } else { LabelsDiffer(s, g, l, r); }
  }

  // ---------- the span that the rest of the field needs ----------

  /** How many bytes two sequences have in common in front. */
  function CommonLen(a: seq<Byte>, b: seq<Byte>): (n: nat)
    ensures n <= |a| && n <= |b| && a[..n] == b[..n]
    ensures n < |a| && n < |b| ==> a[n] != b[n]
  {
    if a == [] || b == [] || a[0] != b[0] then 0 else
      var n := 1 + CommonLen(a[1..], b[1..]);
      assert a[..n] == [a[0]] + a[1..][..n - 1] && b[..n] == [b[0]] + b[1..][..n - 1];
      n
  }

  lemma {:induction false} SamePrefix(a: seq<Byte>, b: seq<Byte>, n: nat, k: nat)
    requires k < n <= |a| && n <= |b| && a[..n] == b[..n]
    ensures a[k] == b[k]
  {
    assert a[..n][k] == b[..n][k];
  }

  lemma {:induction false} CommonIs(a: seq<Byte>, b: seq<Byte>, n: nat)
    requires n <= |a| && n <= |b| && a[..n] == b[..n] && (n < |a| && n < |b| ==> a[n] != b[n])
    ensures CommonLen(a, b) == n
  {
    var m := CommonLen(a, b);
    if m < n {
      SamePrefix(a, b, n, m);
    } else if n < m {
      SamePrefix(a, b, m, n);
    }
  }

  /** The bytes that go into one new span when the field is completed from where its walk halts. */
  ghost function SpanNeeded(s: Art, l: Loc, key: seq<Byte>, off: nat): nat
    requires off < |key|
  {
    var c := Content(s, l);
    var left := |key| - off;
    if c.KeyEnd? then 0
    else if !IsRef(c) || c.addr !in s.nodes then left
    else match s.nodes[c.addr]
         case Span(bytes, _) => var idx := CommonLen(bytes, key[off..]); if idx < left then left - idx - 1 else 0
         case _ => left - 1
  }

  /** Completing the field takes a span of more than 248 bytes. */
  ghost predicate TooLongSpan(s: Art, g: Labels, base: Loc, key: seq<Byte>) {
    exists off: nat, l: Loc :: off < |key| && Halts(s, g, base, key, off, l) && SpanNeeded(s, l, key, off) > MAX_SPAN
  }

  /** Where the walk halts decides. */
  lemma {:induction false} HaltDecides(s: Art, g: Labels, base: Loc, key: seq<Byte>, off: nat, l: Loc)
    requires Valid(s, g) && Halts(s, g, base, key, off, l)
    ensures TooLongSpan(s, g, base, key) <==> off < |key| && SpanNeeded(s, l, key, off) > MAX_SPAN
  {
    hide Valid, Halts, SpanNeeded;
    if TooLongSpan(s, g, base, key) {
      var o: nat, r: Loc :| o < |key| && Halts(s, g, base, key, o, r) && SpanNeeded(s, r, key, o) > MAX_SPAN;
      HaltsOnce(s, g, base, key, off, l, o, r);
    }
  }

  /** A field of up to 248 bytes never needs a longer span. */
  lemma {:induction false} ShortField(s: Art, g: Labels, base: Loc, key: seq<Byte>)
    requires |key| <= MAX_SPAN
    ensures !TooLongSpan(s, g, base, key)
  {
  }
}
