/**
 The shape of an index over `k` key fields and a suffix of `w` bytes: where in the tree field
 ends, suffix nodes and key ends may stand, and which keys the tree holds.
 */
module ArtSchema {
  import opened ArtNodes
  import opened ArtTree
  import opened ArtGraft
  import opened ArtPatches
  import opened ArtPaths
  import opened ArtGrowth
  import opened ArtInsert
  import opened ArtSplice

  /** How many fields lie behind. */
  function Lev(q: Path): nat {
    if q == [] then 0 else Lev(q[..|q| - 1]) + (if q[|q| - 1].Next? then 1 else 0)
  }

  /** Steps since the last field end. */
  function Tail(q: Path): nat {
    if q == [] || q[|q| - 1].Next? then 0 else Tail(q[..|q| - 1]) + 1
  }

  predicate EndsInPass(q: Path) { q != [] && q[|q| - 1].Pass? }

  /** The steps a path of the index may take: field bytes, then the suffix node, then at most `w` bytes. */
  predicate Shape(q: Path, k: nat, w: nat) {
    q == [] ||
    (var up := q[..|q| - 1];
     Shape(up, k, w)
     && match q[|q| - 1]
        case B(_) => Lev(up) != k && (Lev(up) == k + 1 ==> Tail(up) < w)
        case Next => Lev(up) <= k
        case Pass => Lev(up) <= k)
  }

  /** What a slot with label `q` may hold. */
  predicate SlotShape(q: Path, c: Slot, k: nat, w: nat) {
    && Shape(q, k, w) && MarkShape(q, TagOf(c), k, w)
    && (Lev(q) == k ==> c == Unused || c.RefSfx?)
    && (Lev(q) == k + 1 && Tail(q) == w ==> c == Unused || c == KeyEnd)
  }

  predicate MarkShape(q: Path, t: Tag, k: nat, w: nat) {
    match t
    case NoTag => true
    case TagFld => Lev(q) < k && !EndsInPass(q)
    case TagSfx => Lev(q) == k && !EndsInPass(q)
    case TagKey => Lev(q) == k + 1 && Tail(q) == w
  }

  ghost predicate Schema(s: Art, g: Labels, k: nat, w: nat) {
    forall l | l in g.path :: SlotShape(g.path[l], Content(s, l), k, w)
  }

  /** The tree holds this complete key. */
  ghost predicate HasKey(s: Art, g: Labels, key: Path) {
    exists l | l in g.path :: Content(s, l) == KeyEnd && Erase(g.path[l]) == key
  }

  // ---------- levels and shapes along a path ----------

  lemma {:induction false} LevConcat(p: Path, q: Path)
    ensures Lev(p + q) == Lev(p) + Lev(q)
  {
    if q == [] {
      assert p + q == p;
    } else {
      assert (p + q)[..|p + q| - 1] == p + q[..|q| - 1];
      LevConcat(p, q[..|q| - 1]);
    }
  }

  lemma {:induction false} LevOfErased(q: Path)
    ensures Lev(Erase(q)) == Lev(q)
  {
    if q != [] {
      var up, last := q[..|q| - 1], q[|q| - 1];
      LevOfErased(up);
      if last != Pass {
        assert (Erase(up) + [last])[..|Erase(up)|] == Erase(up);
      } else {
        assert Erase(q) == Erase(up) + [] == Erase(up);
      }
    }
  }

  lemma {:induction false} LevOfBytes(key: seq<Byte>)
    ensures Lev(Bytes(key)) == 0
  {
    if key != [] {
      assert Bytes(key)[..|key| - 1] == Bytes(key[..|key| - 1]);
      LevOfBytes(key[..|key| - 1]);
    }
  }

  /** A path within one field passes no field end. */
  lemma {:induction false} SpellsLev(u: Path, key: seq<Byte>)
    requires Spells(u, key)
    ensures Lev(u) == 0
  {
    LevOfErased(u);
    LevOfBytes(key);
  }

  lemma {:induction false} PrefixSplit(p: Path, q: Path)
    requires p < q
    ensures p <= q[..|q| - 1] && (|p| == |q| - 1 ==> p == q[..|q| - 1])
  {
  }

  lemma {:induction false} ShapePrefix(p: Path, q: Path, k: nat, w: nat)
    requires p <= q && Shape(q, k, w)
    ensures Shape(p, k, w)
  {
    if p < q {
      PrefixSplit(p, q);
      ShapePrefix(p, q[..|q| - 1], k, w);
    } else {
      assert p == q;
    }
  }

  lemma {:induction false} LevPrefix(p: Path, q: Path)
    requires p <= q
    ensures Lev(p) <= Lev(q)
  {
    assert q == p + q[|p|..];
    LevConcat(p, q[|p|..]);
  }

  /** Below the suffix node there is nothing but bytes, and not too many. */
  lemma {:induction false} SuffixGoesOn(p: Path, q: Path, k: nat, w: nat)
    requires p < q && Shape(q, k, w) && Lev(p) == k + 1
    ensures Tail(p) < w && q[|p|].B?
  {
    var step := p + [q[|p|]];
    assert step <= q && step[..|step| - 1] == p;
    ShapePrefix(step, q, k, w);
  }

  lemma {:induction false} FieldShape(b: Path, u: Path, k: nat, w: nat)
    requires Shape(b, k, w) && Lev(b) < k && Lev(u) == 0
    ensures Shape(b + u, k, w) && Lev(b + u) == Lev(b)
  {
    if u == [] {
      assert b + u == b;
    } else {
      var up := u[..|u| - 1];
      assert (b + u)[..|b + u| - 1] == b + up;
      FieldShape(b, up, k, w);
    }
  }

  lemma {:induction false} SuffixShape(b: Path, u: Path, k: nat, w: nat)
    requires Shape(b, k, w) && Lev(b) == k + 1 && AllBytes(u) && Tail(b) + |u| <= w
    ensures Shape(b + u, k, w) && Lev(b + u) == k + 1 && Tail(b + u) == Tail(b) + |u|
  {
    if u == [] {
      assert b + u == b;
    } else {
      var up := u[..|u| - 1];
      assert (b + u)[..|b + u| - 1] == b + up;
      SuffixShape(b, up, k, w);
    }
  }

  lemma {:induction false} EraseOfBytes(u: Path)
    requires AllBytes(u)
    ensures Erase(u) == u
  {
    if u != [] { EraseOfBytes(u[..|u| - 1]); }
  }

  /** All steps behind `b` are bytes when `q` continues a label of the index with bytes. */
  lemma {:induction false} SuffixBytes(b: Path, o: Path, q: Path, k: nat, w: nat)
    requires b <= q && o <= q && Shape(o, k, w) && Lev(b) == k + 1 && AllBytes(q[|o|..])
    ensures AllBytes(q[|b|..])
  {
    forall i | 0 <= i < |q| - |b| ensures q[|b|..][i].B? {
      if |b| + i < |o| {
        var p := q[..|b| + i];
        assert p < o && b <= p;
        LevPrefix(b, p);
        ShapePrefix(p, o, k, w);
        ShapeLev(p, k, w);
        SuffixGoesOn(p, o, k, w);
      } else {
        assert q[|o|..][|b| + i - |o|] == q[|b| + i];
      }
    }
  }

  lemma {:induction false} ShapeLev(q: Path, k: nat, w: nat)
    requires Shape(q, k, w)
    ensures Lev(q) <= k + 1
  {
    if q != [] { ShapeLev(q[..|q| - 1], k, w); }
  }

  // ---------- appending a field keeps the schema ----------

  /** Where fields are appended: below a field end before the last, or below the suffix node. */
  predicate AppendSite(b: Path, len: nat, k: nat, w: nat) {
    Lev(b) < k || (Lev(b) == k + 1 && Tail(b) == 0 && len == w)
  }

  lemma {:induction false} TargetShape(
      s: Art, g: Labels, s': Art, g': Labels, base: Loc, key: seq<Byte>, slot: Loc, k: nat, w: nat)
    requires Schema(s, g, k, w) && Appended(s, g, s', g', base, key, slot)
    requires AppendSite(g.path[base], |key|, k, w)
    ensures g.path[base] <= g'.path[slot] && Erase(g'.path[slot]) == Erase(g.path[base]) + Bytes(key)
    ensures Shape(g'.path[slot], k, w) && Lev(g'.path[slot]) == Lev(g.path[base])
    ensures Lev(g.path[base]) == k + 1 ==> Tail(g'.path[slot]) == w
  {
    hide Valid, Preserved;
    var b, t := g.path[base], g'.path[slot];
    assert g'.path[base] == b && b <= t;
    var u := t[|b|..];
    assert t == b + u && Spells(u, key);
    SpellsLev(u, key);
    EraseConcat(b, u);
    if Lev(b) < k {
      FieldShape(b, u, k, w);
    } else {
      TargetBytes(s, g, t, Content(s', slot), b, k, w);
      EraseOfBytes(u);
      SuffixShape(b, u, k, w);
    }
  }

  lemma {:induction false} TargetBytes(s: Art, g: Labels, t: Path, c: Slot, b: Path, k: nat, w: nat)
    requires Schema(s, g, k, w) && SlotOnTheWay(s, g, t, c, |b|, t) && b <= t && Lev(b) == k + 1
    ensures AllBytes(t[|b|..])
  {
    if OldSlot(s, g, t, c, |b|, t) {
      var l :| l in g.path && g.path[l] == t;
      SuffixBytes(b, t, t, k, w);
    } else {
      var o :| o in g.path && g.path[o] <= t && AllBytes(t[|g.path[o]|..]);
      SuffixBytes(b, g.path[o], t, k, w);
    }
  }

  /** A slot on the way to the target that fits the schema fits the schema. */
  lemma {:induction false} WayShape(s: Art, g: Labels, q: Path, c: Slot, b: Path, t: Path, k: nat, w: nat)
    requires Schema(s, g, k, w) && SlotOnTheWay(s, g, q, c, |b|, t)
    requires b <= t && Shape(t, k, w) && Lev(t) == Lev(b) != k && (Lev(b) == k + 1 ==> Tail(t) == w)
    ensures Shape(q, k, w)
    ensures Lev(q) == k ==> c == Unused || c.RefSfx?
    ensures Lev(q) == k + 1 && Tail(q) == w ==> c == Unused || c == KeyEnd
  {
    if OldSlot(s, g, q, c, |b|, t) {
      var l :| l in g.path && g.path[l] == q && (Content(s, l) == c || (|b| <= |q| && q < t));
      if Content(s, l) != c {
        assert b <= q;
        LevPrefix(b, q);
        LevPrefix(q, t);
        if Lev(q) == k + 1 { SuffixGoesOn(q, t, k, w); }
      }
    } else if Inside(g, q) {
      var r :| r in g.path && q < g.path[r];
      ShapePrefix(q, g.path[r], k, w);
      if Lev(q) == k + 1 { SuffixGoesOn(q, g.path[r], k, w); }
    } else {
      ShapePrefix(q, t, k, w);
      if q < t && Lev(q) == k + 1 { SuffixGoesOn(q, t, k, w); }
    }
  }

  lemma {:induction false} AppendSchema(
      s: Art, g: Labels, s': Art, g': Labels, base: Loc, key: seq<Byte>, slot: Loc, k: nat, w: nat)
    requires Schema(s, g, k, w) && Appended(s, g, s', g', base, key, slot)
    requires AppendSite(g.path[base], |key|, k, w)
    ensures Schema(s', g', k, w)
  {
    TargetShape(s, g, s', g', base, key, slot, k, w);
    hide Valid, Shape, Lev, Tail, Arrives;
    var b, t := g.path[base], g'.path[slot];
    forall l | l in g'.path ensures SlotShape(g'.path[l], Content(s', l), k, w) {
      var q, c := g'.path[l], Content(s', l);
      WayShape(s, g, q, c, b, t, k, w);
      if TagOf(c) != NoTag {
        assert Has(s', g', q, TagOf(c));
        MarkKept(s, g, q, TagOf(c), k, w);
      }
    }
  }

  lemma {:induction false} MarkKept(s: Art, g: Labels, q: Path, t: Tag, k: nat, w: nat)
    requires Schema(s, g, k, w) && Has(s, g, q, t)
    ensures MarkShape(q, t, k, w)
  {
  }

  lemma {:induction false} KeyIsMark(s: Art, g: Labels, key: Path)
    ensures HasKey(s, g, key) <==> exists p :: Has(s, g, p, TagKey) && Erase(p) == key
  {
    if HasKey(s, g, key) {
      var l :| l in g.path && Content(s, l) == KeyEnd && Erase(g.path[l]) == key;
      assert Has(s, g, g.path[l], TagKey);
    }
  }

  ghost predicate SameKeys(s: Art, g: Labels, s': Art, g': Labels) {
    forall key :: HasKey(s', g', key) <==> HasKey(s, g, key)
  }

  lemma {:induction false} AppendKeys(s: Art, g: Labels, s': Art, g': Labels)
    requires Preserved(s, g, s', g')
    ensures SameKeys(s, g, s', g')
  {
    hide HasKey, Has;
    forall key ensures HasKey(s', g', key) <==> HasKey(s, g, key) {
      KeyIsMark(s, g, key);
      KeyIsMark(s', g', key);
    }
  }

  /** No complete key stands in the way of a field. */
  lemma {:induction false} NothingBlocks(s: Art, g: Labels, base: Loc, key: seq<Byte>, slot: Loc, k: nat, w: nat)
    requires Schema(s, g, k, w) && base in g.path && AppendSite(g.path[base], |key|, k, w)
    ensures !Blocks(s, g, base, key, slot)
  {
    if Blocks(s, g, base, key, slot) {
      var n: nat :| n < |key| && Along(g, base, key[..n], slot);
      var b, t := g.path[base], g.path[slot];
      var u := t[|b|..];
      assert t == b + u;
      SpellsLev(u, key[..n]);
      LevConcat(b, u);
      assert SlotShape(t, Content(s, slot), k, w);
      SuffixBytes(b, t, t, k, w);
      EraseOfBytes(u);
      ShapePrefix(b, t, k, w);
      SuffixShape(b, u, k, w);
      assert false;
    }
  }

  // ---------- splicing an end node keeps the schema ----------

  /** Two ways to a slot that agree in level and, below the first field end, in tail go on alike. */
  lemma {:induction false} GoOnAlike(up: Path, up': Path, x: Sym, n: nat, k: nat, w: nat)
    requires n < k && Shape(up', k, w) && Lev(up') == Lev(up) >= n && (Lev(up) > n ==> Tail(up') == Tail(up))
    requires Shape(up + [x], k, w) && Erase(up') == Erase(up)
    ensures Shape(up' + [x], k, w) && Lev(up' + [x]) == Lev(up + [x]) >= n && Erase(up' + [x]) == Erase(up + [x])
    ensures Lev(up + [x]) > n ==> Tail(up' + [x]) == Tail(up + [x])
  {
    assert (up + [x])[..|up|] == up && (up' + [x])[..|up'|] == up';
  }

  lemma {:induction false} ShiftedShape(at: Path, rest: Path, k: nat, w: nat)
    requires Shape(at + rest, k, w) && Lev(at) < k
    ensures var q, q' := at + rest, at + [Pass] + rest;
            && Shape(q', k, w) && Lev(q') == Lev(q) >= Lev(at) && Erase(q') == Erase(q)
            && (Lev(q) > Lev(at) ==> Tail(q') == Tail(q))
  {
    var q, q' := at + rest, at + [Pass] + rest;
    if rest == [] {
      assert q == at && q' == at + [Pass] && q'[..|at|] == at;
    } else {
      var up, x := rest[..|rest| - 1], rest[|rest| - 1];
      assert q == at + up + [x] && q' == at + [Pass] + up + [x];
      ShapePrefix(at + up, q, k, w);
      ShiftedShape(at, up, k, w);
      hide Shape, Lev, Tail, Erase;
      GoOnAlike(at + up, at + [Pass] + up, x, Lev(at), k, w);
    }
  }

  lemma {:induction false} OwnerRefers(s: Art, g: Labels, c: Loc)
    requires Valid(s, g) && c in g.path && c != Root
    ensures c.addr in g.owner && IsRef(Content(s, g.owner[c.addr]))
  {
    assert Refers(Content(s, g.owner[c.addr]), c.addr, s.nodes[c.addr]);
  }

  /** Slots beyond one that refers to nothing do not exist. */
  lemma {:induction false} NothingBeyond(s: Art, g: Labels, at: Loc, l: Loc)
    requires Valid(s, g) && at in g.path && l in g.path && !IsRef(Content(s, at))
    ensures !(g.path[at] < g.path[l])
  {
    if g.path[at] < g.path[l] {
      PrefixIsAbove(s, g, at, l);
      var c := StepDown(s, g, at, l);
      OwnerRefers(s, g, c);
      assert false;
    }
  }

  /** Where an end node may be spliced in. */
  predicate SpliceSite(q: Path, c: Slot, fld: bool, k: nat) {
    !EndsInPass(q) && if fld then Lev(q) < k && !c.RefFld? else Lev(q) == k && c == Unused
  }

  lemma {:induction false} ShiftedSlot(s: Art, g: Labels, at: Loc, e: nat, fld: bool, k: nat, w: nat, l: Loc)
    requires SpliceOk(s, g, at, e) && Schema(s, g, k, w) && SpliceSite(g.path[at], Content(s, at), fld, k)
    requires l in g.path && l != at
    ensures var q := Shifted(g.path[at], g.path[l]);
            SlotShape(q, Content(s, l), k, w) && Erase(q) == Erase(g.path[l])
  {
    hide Valid;
    var a, q := g.path[at], g.path[l];
    assert SlotShape(q, Content(s, l), k, w);
    if fld {
      if a < q { BeyondEnd(a, q, Content(s, l), k, w); }
    } else {
      NothingBeyond(s, g, at, l);
    }
  }

  lemma {:induction false} BeyondEnd(a: Path, q: Path, c: Slot, k: nat, w: nat)
    requires a < q && SlotShape(q, c, k, w) && Lev(a) < k
    ensures SlotShape(Shifted(a, q), c, k, w) && Erase(Shifted(a, q)) == Erase(q)
  {
    hide Shape, Lev, Tail, Erase;
    assert q == a + q[|a|..];
    ShiftedShape(a, q[|a|..], k, w);
    var q' := Shifted(a, q);
    assert q' == a + [Pass] + q[|a|..] && q'[|q'| - 1] == q[|q| - 1];
  }

  lemma {:induction false} EndSlots(q: Path, c: Slot, fld: bool, k: nat, w: nat, e: nat)
    requires w > 0 && SlotShape(q, c, k, w) && SpliceSite(q, c, fld, k)
    ensures SlotShape(q, EndRef(e, fld), k, w) && SlotShape(q + [Next], Unused, k, w) && SlotShape(q + [Pass], c, k, w)
    ensures TagOf(c) == NoTag
  {
    assert (q + [Next])[..|q|] == q && (q + [Pass])[..|q|] == q;
  }

  lemma {:induction false} SpliceSchema(s: Art, g: Labels, at: Loc, e: nat, fld: bool, k: nat, w: nat)
    requires w > 0 && SpliceOk(s, g, at, e) && Schema(s, g, k, w) && SpliceSite(g.path[at], Content(s, at), fld, k)
    ensures Schema(Spliced(s, at, e, fld), SplicedLabels(s, g, at, e), k, w)
  {
    var s', g' := Spliced(s, at, e, fld), SplicedLabels(s, g, at, e);
    EndSlots(g.path[at], Content(s, at), fld, k, w, e);
    hide Valid, SlotShape, Spliced, SplicedLabels, SpliceSite;
    forall l | l in g'.path ensures SlotShape(g'.path[l], Content(s', l), k, w) {
      SplicedSlots(s, g, at, e, l);
      SplicedContent(s, g, at, e, fld, l);
      if l in g.path && l != at { ShiftedSlot(s, g, at, e, fld, k, w, l); }
    }
  }

  lemma {:induction false} SpliceKeys(s: Art, g: Labels, at: Loc, e: nat, fld: bool, k: nat, w: nat)
    requires w > 0 && SpliceOk(s, g, at, e) && Schema(s, g, k, w) && SpliceSite(g.path[at], Content(s, at), fld, k)
    ensures SameKeys(s, g, Spliced(s, at, e, fld), SplicedLabels(s, g, at, e))
  {
    var s', g' := Spliced(s, at, e, fld), SplicedLabels(s, g, at, e);
    EndSlots(g.path[at], Content(s, at), fld, k, w, e);
    hide Valid, SlotShape, Spliced, SplicedLabels, SpliceSite, Schema, Shifted, Erase;
    forall key ensures HasKey(s', g', key) <==> HasKey(s, g, key) {
      if HasKey(s, g, key) {
        var l :| l in g.path && Content(s, l) == KeyEnd && Erase(g.path[l]) == key;
        SplicedSlots(s, g, at, e, l);
        SplicedContent(s, g, at, e, fld, l);
        ShiftedSlot(s, g, at, e, fld, k, w, l);
        assert l in g'.path;
      }
      if HasKey(s', g', key) {
        var l :| l in g'.path && Content(s', l) == KeyEnd && Erase(g'.path[l]) == key;
        SplicedSlots(s, g, at, e, l);
        SplicedContent(s, g, at, e, fld, l);
        ShiftedSlot(s, g, at, e, fld, k, w, l);
      }
    }
  }

  // ---------- marking the end of a key ----------

  lemma {:induction false} MarkContent(s: Art, g: Labels, at: Loc, l: Loc)
    requires Valid(s, g) && at in g.path
    ensures var s' := SetSlot(s, at, KeyEnd);
            Content(s', at) == KeyEnd && (l in g.path && l != at ==> Content(s', l) == Content(s, l))
  {
    LiveSlots(s, g, at);
    LiveSlots(s, g, l);
    if at.In? { WithSlotSame(s.nodes[at.addr], at.i, KeyEnd); }
  }

  lemma {:induction false} MarkNode(s: Art, g: Labels, at: Loc, n: nat)
    requires Valid(s, g) && at in g.path && n in s.nodes
    ensures var s' := SetSlot(s, at, KeyEnd);
            && s'.nodes.Keys == s.nodes.Keys && NodeOk(s'.nodes[n])
            && (forall j: nat :: HasChild(s'.nodes[n], j) == HasChild(s.nodes[n], j))
            && (forall j: nat, p: Path :: EdgeIs(s'.nodes[n], j, p) == EdgeIs(s.nodes[n], j, p))
            && (forall d: Slot, a: nat :: Refers(d, a, s'.nodes[n]) == Refers(d, a, s.nodes[n]))
  {
    LiveSlots(s, g, at);
    if at.In? { WithSlotSame(s.nodes[at.addr], at.i, KeyEnd); }
  }

  lemma {:induction false} MarkLive(s: Art, g: Labels, at: Loc, l: Loc)
    requires Valid(s, g) && at in g.path
    ensures l in g.path <==> Live(SetSlot(s, at, KeyEnd), l)
  {
    LiveSlots(s, g, l);
    if l.In? && l.addr in s.nodes {
      MarkNode(s, g, at, l.addr);
    }
  }

  lemma {:induction false} MarkOwner(s: Art, g: Labels, at: Loc, n: nat)
    requires Valid(s, g) && at in g.path && !IsRef(Content(s, at)) && n in s.nodes
    ensures var s' := SetSlot(s, at, KeyEnd);
            && n in g.owner && g.owner[n] in g.path && g.owner[n] != at
            && n in s'.nodes && Refers(Content(s', g.owner[n]), n, s'.nodes[n])
  {
    assert Refers(Content(s, g.owner[n]), n, s.nodes[n]);
    MarkContent(s, g, at, g.owner[n]);
    MarkNode(s, g, at, n);
  }

  lemma {:induction false} MarkEdge(s: Art, g: Labels, at: Loc, l: Loc)
    requires Valid(s, g) && at in g.path && l in g.path && l != Root
    ensures var s' := SetSlot(s, at, KeyEnd);
            l.addr in s'.nodes && l.addr in g.owner && g.owner[l.addr] in g.path && EdgeOk(s', g, l)
  {
    assert EdgeOk(s, g, l);
    MarkNode(s, g, at, l.addr);
  }

  lemma {:induction false} RefOwner(s: Art, g: Labels, l: Loc)
    requires Valid(s, g) && l in g.path && IsRef(Content(s, l))
    ensures Content(s, l).addr in s.nodes && Content(s, l).addr in g.owner && g.owner[Content(s, l).addr] == l
  {
  }

  lemma {:induction false} RootLabel(s: Art, g: Labels)
    requires Valid(s, g)
    ensures Root in g.path && g.path[Root] == []
  {
  }

  lemma {:induction false} MarkedNodes(s: Art, g: Labels, at: Loc)
    ensures SetSlot(s, at, KeyEnd).nodes.Keys == s.nodes.Keys
  {
  }

  lemma {:induction false} MarkValid(s: Art, g: Labels, at: Loc)
    requires Valid(s, g) && at in g.path && !IsRef(Content(s, at))
    ensures Valid(SetSlot(s, at, KeyEnd), g)
  {
    hide EdgeIs, NodeOk, Refers, SetSlot, HasChild;
    var s' := SetSlot(s, at, KeyEnd);
    RootLabel(s, g);
    MarkedNodes(s, g, at);
    forall l ensures l in g.path <==> Live(s', l) { MarkLive(s, g, at, l); }
    forall a | a in s'.nodes
      ensures NodeOk(s'.nodes[a]) && a in g.owner && g.owner[a] in g.path && Refers(Content(s', g.owner[a]), a, s'.nodes[a])
    {
      MarkNode(s, g, at, a);
      MarkOwner(s, g, at, a);
    }
    forall l | l in g.path && IsRef(Content(s', l))
      ensures Content(s', l).addr in s'.nodes && g.owner[Content(s', l).addr] == l
    {
      MarkContent(s, g, at, l);
      RefOwner(s, g, l);
      MarkNode(s, g, at, Content(s, l).addr);
    }
    forall l | l in g.path && l != Root ensures EdgeOk(s', g, l) { MarkEdge(s, g, at, l); }
  }

  /** Marking the end of a key adds exactly that key. */
  lemma {:induction false} MarkKeys(s: Art, g: Labels, at: Loc, k: nat, w: nat)
    requires Valid(s, g) && Schema(s, g, k, w) && at in g.path && Lev(g.path[at]) == k + 1 && Tail(g.path[at]) == w
    ensures var s' := SetSlot(s, at, KeyEnd);
            && Valid(s', g) && Schema(s', g, k, w)
            && forall key :: HasKey(s', g, key) <==> HasKey(s, g, key) || key == Erase(g.path[at])
  {
    var s' := SetSlot(s, at, KeyEnd);
    assert SlotShape(g.path[at], Content(s, at), k, w);
    MarkValid(s, g, at);
    hide Valid, SetSlot, Lev, Tail, Shape, Erase;
    forall l | l in g.path ensures SlotShape(g.path[l], Content(s', l), k, w) {
      MarkContent(s, g, at, l);
      assert SlotShape(g.path[l], Content(s, l), k, w);
    }
    forall key ensures HasKey(s', g, key) <==> HasKey(s, g, key) || key == Erase(g.path[at]) {
      MarkedKey(s, g, at, key);
    }
  }

  lemma {:induction false} MarkedKey(s: Art, g: Labels, at: Loc, key: Path)
    requires Valid(s, g) && at in g.path
    ensures HasKey(SetSlot(s, at, KeyEnd), g, key) <==> HasKey(s, g, key) || key == Erase(g.path[at])
  {
    hide Valid, SetSlot, Erase;
    var s' := SetSlot(s, at, KeyEnd);
    if HasKey(s, g, key) {
      var l :| l in g.path && Content(s, l) == KeyEnd && Erase(g.path[l]) == key;
      MarkContent(s, g, at, l);
      assert Content(s', l) == KeyEnd;
    }
    if key == Erase(g.path[at]) {
      MarkContent(s, g, at, at);
    }
    if HasKey(s', g, key) {
      var l :| l in g.path && Content(s', l) == KeyEnd && Erase(g.path[l]) == key;
      MarkContent(s, g, at, l);
    }
  }
}
