/**
 The complete keys of the radix tree in the order a cursor meets them: every key end once,
 sorted field by field.
 */
module ArtOrder {
  import opened ArtNodes
  import opened ArtTree
  import opened ArtPatches
  import opened ArtPaths
  import opened ArtSplice
  import opened ArtSchema

  // ---------- the order of the children of a node ----------

  /** Slot `i` is the child of the node at position `p`: key bytes in order, next before pass. */
  ghost predicate ChildAt(n: Node, p: int, i: nat) {
    HasChild(n, i) &&
    match n
    case Span(_, _) => p == 0
    case End(_, _) => p == i
    case _ => 0 <= p < 256 && ByteOf(n, i, p)
  }

  lemma {:induction false} ChildAtOnce(n: Node, p: int, i: nat, j: nat)
    requires NodeOk(n) && ChildAt(n, p, i) && ChildAt(n, p, j)
    ensures i == j
  {
    if IsRadix(n) { EdgesPart(n, i, j, [B(p)], [B(p)]); }
  }

  lemma {:induction false} ChildHasPosition(n: Node, i: nat) returns (p: int)
    requires NodeOk(n) && HasChild(n, i)
    ensures 0 <= p < 256 && ChildAt(n, p, i)
  {
    match n
    case Span(_, _) => p := 0;
    case End(_, _) => p := i;
    case _ =>
      var e := EdgeExists(n, i);
      p := e[0].b;
  }

  ghost predicate Empty(n: Node, p: int) { forall i: nat :: !ChildAt(n, p, i) }

  ghost function ChildOf(n: Node, p: int): (i: nat)
    requires !Empty(n, p)
    ensures ChildAt(n, p, i)
  {
    var i: nat :| ChildAt(n, p, i);
    i
  }

  // ---------- the key ends at and below a slot ----------

  lemma {:induction false} ChildDeeper(s: Art, g: Labels, l: Loc, i: nat)
    requires Valid(s, g) && l in g.path && IsRef(Content(s, l))
    requires Content(s, l).addr in s.nodes && HasChild(s.nodes[Content(s, l).addr], i)
    ensures var c := In(Content(s, l).addr, i); c in g.path && g.path[l] < g.path[c] && Height(g, c) < Height(g, l)
  {
    ChildLabel(s, g, l, i);
    HeightShrinks(g, l, In(Content(s, l).addr, i));
  }

  /** How many slots have longer labels. */
  ghost function Height(g: Labels, l: Loc): nat
    requires l in g.path
  {
    |Deeper(g, l)|
  }

  lemma {:induction false} HeightShrinks(g: Labels, l: Loc, c: Loc)
    requires l in g.path && c in g.path && |g.path[l]| < |g.path[c]|
    ensures Height(g, c) < Height(g, l)
  {
    DeeperShrinks(g, l, c);
    SmallerSet(Deeper(g, c), Deeper(g, l));
  }

  lemma {:induction false} SmallerSet(a: set<Loc>, b: set<Loc>)
    requires a < b
    ensures |a| < |b|
  {
    var x :| x in b && x !in a;
    assert |b - a| + |a| == |b| by { assert (b - a) + a == b; }
    assert x in b - a;
  }

  ghost predicate Inner(s: Art, g: Labels, l: Loc) {
    Valid(s, g) && l in g.path && IsRef(Content(s, l)) && Content(s, l).addr in s.nodes && NodeOk(s.nodes[Content(s, l).addr])
  }

  ghost function NodeAt(s: Art, g: Labels, l: Loc): Node
    requires Inner(s, g, l)
  {
    s.nodes[Content(s, l).addr]
  }

  /** The child slot of the node behind `l` at a position. */
  ghost function Child(s: Art, g: Labels, l: Loc, p: int): (c: Loc)
    requires Inner(s, g, l) && !Empty(NodeAt(s, g, l), p)
    ensures c.In? && c.addr == Content(s, l).addr && ChildAt(NodeAt(s, g, l), p, c.i)
    ensures c in g.path && g.path[l] < g.path[c] && Height(g, c) < Height(g, l)
  {
    ChildDeeper(s, g, l, ChildOf(NodeAt(s, g, l), p));
    In(Content(s, l).addr, ChildOf(NodeAt(s, g, l), p))
  }

  lemma {:induction false} RefInner(s: Art, g: Labels, l: Loc)
    requires Valid(s, g) && l in g.path && IsRef(Content(s, l))
    ensures Inner(s, g, l)
  {
  }

  /** The child at a position, if there is one. */
  ghost function Kid(s: Art, g: Labels, l: Loc, p: int): (kid: seq<Loc>)
    requires Valid(s, g) && l in g.path && IsRef(Content(s, l))
    ensures |kid| <= 1 && (kid != [] ==> kid[0] in g.path && Height(g, kid[0]) < Height(g, l))
  {
    RefInner(s, g, l);
    hide Valid, Height;
    if Empty(NodeAt(s, g, l), p) then [] else [Child(s, g, l, p)]
  }

  /** The key ends behind slot `l` at positions after `ch`, in the order of the cursor. */
  ghost function Rest(s: Art, g: Labels, l: Loc, ch: int): seq<Loc>
    requires Valid(s, g) && l in g.path && -1 <= ch < 256
    decreases Height(g, l), 256 - ch
  {
    if Content(s, l) == KeyEnd then (if ch < 0 then [l] else [])
    else if Content(s, l) == Unused || ch == 255 then []
    else
      hide Valid, NodeOk, Height, Kid;
      var kid := Kid(s, g, l, ch + 1);
      (if kid == [] then [] else Rest(s, g, kid[0], -1)) + Rest(s, g, l, ch + 1)
  }

  /** The turns a cursor spends on slot `l` after position `ch`, including the one that leaves it. */
  ghost function Turns(s: Art, g: Labels, l: Loc, ch: int): (n: nat)
    requires Valid(s, g) && l in g.path && -1 <= ch < 256
    ensures n > 0
    decreases Height(g, l), 256 - ch
  {
    if !IsRef(Content(s, l)) || ch == 255 then 1
    else
      hide Valid, NodeOk, Height, Kid;
      var kid := Kid(s, g, l, ch + 1);
      (if kid == [] then 0 else 1 + Turns(s, g, kid[0], -1)) + Turns(s, g, l, ch + 1)
  }

  /** An empty position adds nothing. */
  lemma {:induction false} SkipEmpty(s: Art, g: Labels, l: Loc, ch: int)
    requires Inner(s, g, l) && -1 <= ch < 255 && Empty(NodeAt(s, g, l), ch + 1)
    ensures Rest(s, g, l, ch) == Rest(s, g, l, ch + 1) && Turns(s, g, l, ch) == Turns(s, g, l, ch + 1)
  {
    hide Valid, NodeOk, ChildAt, Height, Empty;
    assert Rest(s, g, l, ch) == [] + Rest(s, g, l, ch + 1);
  }

  /** A child adds its own list and turns, and the turn that goes there. */
  lemma {:induction false} TakeChild(s: Art, g: Labels, l: Loc, ch: int, c: Loc)
    requires Inner(s, g, l) && -1 <= ch < 255
    requires c.In? && c.addr == Content(s, l).addr && ChildAt(NodeAt(s, g, l), ch + 1, c.i)
    ensures c in g.path && g.path[l] < g.path[c]
    ensures Rest(s, g, l, ch) == Rest(s, g, c, -1) + Rest(s, g, l, ch + 1)
    ensures Turns(s, g, l, ch) == 1 + Turns(s, g, c, -1) + Turns(s, g, l, ch + 1)
  {
    hide Valid, NodeOk, ChildAt, Height;
    var d := Child(s, g, l, ch + 1);
    ChildAtOnce(NodeAt(s, g, l), ch + 1, c.i, d.i);
  }

  /** From `ch` to the next position with a child. */
  lemma {:induction false} NextChild(s: Art, g: Labels, l: Loc, ch: int, p: int, c: Loc)
    requires Inner(s, g, l) && -1 <= ch < p < 256
    requires forall q | ch < q < p :: Empty(NodeAt(s, g, l), q)
    requires c.In? && c.addr == Content(s, l).addr && ChildAt(NodeAt(s, g, l), p, c.i)
    ensures c in g.path && g.path[l] < g.path[c]
    ensures Rest(s, g, l, ch) == Rest(s, g, c, -1) + Rest(s, g, l, p)
    ensures Turns(s, g, l, ch) == 1 + Turns(s, g, c, -1) + Turns(s, g, l, p)
    decreases p - ch
  {
    hide Valid, NodeOk, ChildAt, Height, Rest, Turns, Kid, Empty;
    if ch + 1 == p {
      TakeChild(s, g, l, ch, c);
    } else {
      NextChild(s, g, l, ch + 1, p, c);
      SkipEmpty(s, g, l, ch);
    }
  }

  lemma {:induction false} NoMoreChildren(s: Art, g: Labels, l: Loc, ch: int)
    requires Inner(s, g, l) && -1 <= ch < 256 && forall q | ch < q < 256 :: Empty(NodeAt(s, g, l), q)
    ensures Rest(s, g, l, ch) == []
    decreases 256 - ch
  {
    hide Valid, NodeOk, ChildAt;
    if ch < 255 {
      NoMoreChildren(s, g, l, ch + 1);
      assert Empty(NodeAt(s, g, l), ch + 1);
    }
  }

  // ---------- members: exactly the key ends below the slot ----------

  ghost predicate EndBelow(s: Art, g: Labels, l: Loc, r: Loc) {
    l in g.path && r in g.path && g.path[l] <= g.path[r] && Content(s, r) == KeyEnd
  }

  /** Below a child of `l` after position `ch`. */
  ghost predicate BelowAfter(s: Art, g: Labels, l: Loc, ch: int, r: Loc)
    requires Inner(s, g, l)
  {
    exists p: int, c: Loc :: ch < p < 256 && c.In? && c.addr == Content(s, l).addr && ChildAt(NodeAt(s, g, l), p, c.i)
                             && EndBelow(s, g, c, r)
  }

  lemma {:induction false} LaterChild(s: Art, g: Labels, l: Loc, ch: int, r: Loc)
    requires Inner(s, g, l) && BelowAfter(s, g, l, ch + 1, r)
    ensures BelowAfter(s, g, l, ch, r)
  {
    hide Inner, ChildAt, EndBelow;
  }

  lemma {:induction false} ThisChild(s: Art, g: Labels, l: Loc, ch: int, c: Loc, r: Loc)
    requires Inner(s, g, l) && ch < 255 && c.In? && c.addr == Content(s, l).addr && c in g.path && g.path[l] < g.path[c]
    requires ChildAt(NodeAt(s, g, l), ch + 1, c.i) && EndBelow(s, g, c, r)
    ensures BelowAfter(s, g, l, ch, r) && EndBelow(s, g, l, r)
  {
    hide Valid, NodeOk, ChildAt;
  }

  lemma {:induction false} MembersBelow(s: Art, g: Labels, l: Loc, ch: int, r: Loc)
    requires Valid(s, g) && l in g.path && -1 <= ch < 256 && r in Rest(s, g, l, ch)
    ensures EndBelow(s, g, l, r)
    ensures IsRef(Content(s, l)) ==> Inner(s, g, l) && BelowAfter(s, g, l, ch, r)
    decreases Height(g, l), 256 - ch
  {
    if IsRef(Content(s, l)) && ch < 255 {
      RefInner(s, g, l);
      hide Valid, NodeOk, ChildAt, BelowAfter, EndBelow, Empty;
      if r in Rest(s, g, l, ch + 1) {
        MembersBelow(s, g, l, ch + 1, r);
        LaterChild(s, g, l, ch, r);
      } else {
        var c := Child(s, g, l, ch + 1);
        MembersBelow(s, g, c, -1, r);
        ThisChild(s, g, l, ch, c, r);
      }
    }
  }

  lemma {:induction false} ChildIncluded(s: Art, g: Labels, l: Loc, ch: int, p: int, c: Loc, r: Loc)
    requires Inner(s, g, l) && -1 <= ch < p < 256
    requires c.In? && c.addr == Content(s, l).addr && ChildAt(NodeAt(s, g, l), p, c.i) && c in g.path
    requires r in Rest(s, g, c, -1)
    ensures r in Rest(s, g, l, ch)
    decreases p - ch
  {
    hide Valid, NodeOk, ChildAt;
    if ch + 1 == p {
      ChildAtOnce(NodeAt(s, g, l), p, c.i, Child(s, g, l, p).i);
    } else {
      ChildIncluded(s, g, l, ch + 1, p, c, r);
    }
  }

  /** Every key end at or below a slot is listed. */
  lemma {:induction false} AllListed(s: Art, g: Labels, l: Loc, r: Loc)
    requires Valid(s, g) && EndBelow(s, g, l, r)
    ensures r in Rest(s, g, l, -1)
    decreases Height(g, l)
  {
    if l != r {
      PrefixIsAbove(s, g, l, r);
      var c := StepDown(s, g, l, r);
      AboveIsPrefix(s, g, c, r);
      OwnerHolds(s, g, c);
      RefInner(s, g, l);
      ChildDeeper(s, g, l, c.i);
      hide Valid, Above, Height;
      var p := ChildHasPosition(NodeAt(s, g, l), c.i);
      AllListed(s, g, c, r);
      ChildIncluded(s, g, l, -1, p, c, r);
    }
  }

  lemma {:induction false} OwnerHolds(s: Art, g: Labels, c: Loc)
    requires Valid(s, g) && c in g.path && c != Root
    ensures var o := g.owner[c.addr];
            o in g.path && IsRef(Content(s, o)) && Content(s, o).addr == c.addr && c.addr in s.nodes
            && HasChild(s.nodes[c.addr], c.i)
  {
    assert EdgeOk(s, g, c) && Refers(Content(s, g.owner[c.addr]), c.addr, s.nodes[c.addr]);
    LiveSlots(s, g, c);
  }

  // ---------- the order is that of the keys, field by field ----------

  predicate SymLess(x: Sym, y: Sym) {
    match y
    case B(c) => x.Next? || (x.B? && x.b < c)
    case _ => false
  }

  /** Keys differ first at `n`, or the first ends there: the end of a field is below every byte. */
  predicate LessAt(p: Path, q: Path, n: nat) {
    n <= |p| && n < |q| && p[..n] == q[..n] && (n == |p| || SymLess(p[n], q[n]))
  }

  ghost predicate Less(p: Path, q: Path) { exists n: nat :: LessAt(p, q, n) }

  ghost predicate Sorted(g: Labels, r: seq<Loc>) {
    forall i, j | 0 <= i < j < |r| :: Before(g, r[i], r[j])
  }

  ghost predicate Before(g: Labels, x: Loc, y: Loc) {
    x in g.path && y in g.path && Less(Erase(g.path[x]), Erase(g.path[y]))
  }

  ghost predicate AllLess(g: Labels, a: seq<Loc>, b: seq<Loc>) {
    forall x, y | x in a && y in b :: Before(g, x, y)
  }

  /** No complete key and no end node stands right behind the pass slot of an end node. */
  ghost predicate PassSlotsOk(s: Art, g: Labels) {
    forall l | l in g.path && EndsInPass(g.path[l]) :: TagOf(Content(s, l)) == NoTag
  }

  lemma {:induction false} SchemaPassSlots(s: Art, g: Labels, k: nat, w: nat)
    requires Schema(s, g, k, w)
    ensures PassSlotsOk(s, g)
  {
    forall l | l in g.path && EndsInPass(g.path[l]) ensures TagOf(Content(s, l)) == NoTag {
      var q := g.path[l];
      assert SlotShape(q, Content(s, l), k, w);
      assert Shape(q, k, w) && Lev(q) == Lev(q[..|q| - 1]);
    }
  }

  /** The symbol with which a key below a child goes on from the keys of its parent slot. */
  ghost predicate Branches(n: Node, p: int, x: Sym) {
    match n
    case Span(_, _) => x.B?
    case End(_, _) => if p == 0 then x == Next else x.B?
    case _ => 0 <= p < 256 && x == B(p)
  }

  ghost predicate GoesOn(e: Path, q: Path, n: Node, p: int) {
    e < q && Branches(n, p, q[|e|])
  }

  lemma {:induction false} EraseStep(up: Path, x: Sym, rest: Path)
    requires x != Pass
    ensures Erase(up) < Erase(up + [x] + rest) && Erase(up + [x] + rest)[|Erase(up)|] == x
  {
    EraseConcat(up + [x], rest);
    EraseConcat(up, [x]);
    assert [x][..0] == [] && Erase([x]) == [x];
  }

  /** The label of a slot below a child: the label of the parent slot, the edge, the rest. */
  lemma {:induction false} LabelParts(s: Art, g: Labels, l: Loc, i: nat, r: Loc) returns (e: Path, v: Path)
    requires Inner(s, g, l) && HasChild(NodeAt(s, g, l), i)
    requires EndBelow(s, g, In(Content(s, l).addr, i), r)
    ensures EdgeIs(NodeAt(s, g, l), i, e) && |e| > 0
    ensures g.path[In(Content(s, l).addr, i)] == g.path[l] + e && g.path[r] == g.path[l] + e + v
  {
    hide Valid;
    ChildLabel(s, g, l, i);
    hide NodeOk, EdgeIs;
    var c := In(Content(s, l).addr, i);
    e, v := g.path[c][|g.path[l]|..], g.path[r][|g.path[c]|..];
    EdgesPart(NodeAt(s, g, l), i, i, e, e);
  }

  /** A slot below the node of `l` starts with the edge of a child. */
  lemma {:induction false} BelowBySymbol(s: Art, g: Labels, l: Loc, p: int, c: Loc, r: Loc)
    requires Inner(s, g, l) && c.In? && c.addr == Content(s, l).addr && ChildAt(NodeAt(s, g, l), p, c.i)
    requires EndBelow(s, g, c, r) && PassSlotsOk(s, g)
    ensures GoesOn(Erase(g.path[l]), Erase(g.path[r]), NodeAt(s, g, l), p)
  {
    var n := NodeAt(s, g, l);
    var e, v := LabelParts(s, g, l, c.i, r);
    hide Valid, PassSlotsOk, Erase, NodeOk;
    if n.End? && p == 1 {
      EndPosition(n, c.i, e);
      PassGoesOn(s, g, c, r);
      PassedKey(g.path[l], v);
    } else {
      ChildSymbol(n, p, c.i, e);
      KeyStep(g.path[l], e, v);
    }
  }

  lemma {:induction false} EndPosition(n: Node, i: nat, e: Path)
    requires n.End? && ChildAt(n, 1, i) && EdgeIs(n, i, e)
    ensures e == [Pass]
  {
  }

  lemma {:induction false} KeyStep(up: Path, e: Path, v: Path)
    requires |e| > 0 && e[0] != Pass
    ensures Erase(up) < Erase(up + e + v) && Erase(up + e + v)[|Erase(up)|] == e[0]
  {
    assert up + e + v == up + [e[0]] + (e[1..] + v);
    EraseStep(up, e[0], e[1..] + v);
  }

  lemma {:induction false} PassedKey(up: Path, v: Path)
    requires |v| > 0 && v[0].B?
    ensures Erase(up) < Erase(up + [Pass] + v) && Erase(up + [Pass] + v)[|Erase(up)|] == v[0]
  {
    assert (up + [Pass])[..|up|] == up && Erase(up + [Pass]) == Erase(up);
    assert up + [Pass] + v == up + [Pass] + [v[0]] + v[1..];
    EraseStep(up + [Pass], v[0], v[1..]);
  }

  lemma {:induction false} ChildSymbol(n: Node, p: int, i: nat, e: Path)
    requires NodeOk(n) && ChildAt(n, p, i) && EdgeIs(n, i, e) && |e| > 0 && !(n.End? && p == 1)
    ensures e[0] != Pass && Branches(n, p, e[0])
  {
    if IsRadix(n) { EdgesPart(n, i, i, e, [B(p)]); }
  }

  /** Behind a pass slot the way goes on with a byte. */
  lemma {:induction false} PassGoesOn(s: Art, g: Labels, c: Loc, r: Loc)
    requires Valid(s, g) && PassSlotsOk(s, g) && EndBelow(s, g, c, r) && EndsInPass(g.path[c])
    ensures |g.path[c]| < |g.path[r]| && g.path[r][|g.path[c]|].B?
  {
    assert c != r;
    PrefixIsAbove(s, g, c, r);
    var d := StepDown(s, g, c, r);
    AboveIsPrefix(s, g, d, r);
    OwnerHolds(s, g, d);
    RefInner(s, g, c);
    ChildLabel(s, g, c, d.i);
    RefKind(s, g, c);
    hide Valid, Above;
    var e := g.path[d][|g.path[c]|..];
    EdgesPart(NodeAt(s, g, c), d.i, d.i, e, e);
    assert e[0] == g.path[r][|g.path[c]|];
  }

  lemma {:induction false} RefKind(s: Art, g: Labels, c: Loc)
    requires Inner(s, g, c) && TagOf(Content(s, c)) == NoTag
    ensures !NodeAt(s, g, c).End?
  {
    var a := Content(s, c).addr;
    assert Refers(Content(s, g.owner[a]), a, s.nodes[a]);
  }

  lemma {:induction false} BranchesLess(e: Path, q1: Path, q2: Path, n: Node, p1: int, p2: int)
    requires GoesOn(e, q1, n, p1) && GoesOn(e, q2, n, p2) && p1 < p2 && NodeOk(n)
    requires !n.Span? && (n.End? ==> p1 == 0)
    ensures Less(q1, q2)
  {
    assert q1[..|e|] == e == q2[..|e|];
    assert LessAt(q1, q2, |e|);
  }

  /** Everything below an earlier child comes before everything below a later one. */
  lemma {:induction false} ChildrenInOrder(s: Art, g: Labels, l: Loc, p1: int, r1: Loc, r2: Loc)
    requires Inner(s, g, l) && PassSlotsOk(s, g) && !Empty(NodeAt(s, g, l), p1)
    requires EndBelow(s, g, Child(s, g, l, p1), r1) && BelowAfter(s, g, l, p1, r2)
    ensures Less(Erase(g.path[r1]), Erase(g.path[r2]))
  {
    var n, c1 := NodeAt(s, g, l), Child(s, g, l, p1);
    var p2: int, c2: Loc :| p1 < p2 < 256 && c2.In? && c2.addr == Content(s, l).addr && ChildAt(n, p2, c2.i)
                            && EndBelow(s, g, c2, r2);
    BelowBySymbol(s, g, l, p1, c1, r1);
    BelowBySymbol(s, g, l, p2, c2, r2);
    BranchesLess(Erase(g.path[l]), Erase(g.path[r1]), Erase(g.path[r2]), n, p1, p2);
  }

  lemma {:induction false} CrossOrder(s: Art, g: Labels, l: Loc, ch: int)
    requires Inner(s, g, l) && PassSlotsOk(s, g) && -1 <= ch < 255 && !Empty(NodeAt(s, g, l), ch + 1)
    ensures AllLess(g, Rest(s, g, Child(s, g, l, ch + 1), -1), Rest(s, g, l, ch + 1))
  {
    hide Valid, NodeOk, PassSlotsOk, Less, Erase, ChildAt, Rest;
    var c := Child(s, g, l, ch + 1);
    var a, b := Rest(s, g, c, -1), Rest(s, g, l, ch + 1);
    forall x, y | x in a && y in b ensures Before(g, x, y) {
      MembersBelow(s, g, c, -1, x);
      MembersBelow(s, g, l, ch + 1, y);
      ChildrenInOrder(s, g, l, ch + 1, x, y);
    }
  }

  lemma {:induction false} RestSorted(s: Art, g: Labels, l: Loc, ch: int)
    requires Valid(s, g) && PassSlotsOk(s, g) && l in g.path && -1 <= ch < 256
    ensures Sorted(g, Rest(s, g, l, ch))
    decreases Height(g, l), 256 - ch
  {
    if IsRef(Content(s, l)) && ch < 255 {
      RefInner(s, g, l);
      hide Valid, NodeOk, PassSlotsOk, Sorted, AllLess, ChildAt, Height;
      RestSorted(s, g, l, ch + 1);
      var kid := Kid(s, g, l, ch + 1);
      var a, b := if kid == [] then [] else Rest(s, g, kid[0], -1), Rest(s, g, l, ch + 1);
      if kid != [] {
        RestSorted(s, g, kid[0], -1);
        CrossOrder(s, g, l, ch);
      } else {
        NothingSorted(g, b);
      }
      hide Kid;
      assert Rest(s, g, l, ch) == a + b;
      SortedConcat(g, a, b);
    }
  }

  lemma {:induction false} NothingSorted(g: Labels, b: seq<Loc>)
    ensures Sorted(g, []) && AllLess(g, [], b)
  {
  }

  lemma {:induction false} SortedConcat(g: Labels, a: seq<Loc>, b: seq<Loc>)
    requires Sorted(g, a) && Sorted(g, b) && AllLess(g, a, b)
    ensures Sorted(g, a + b)
  {
    hide Before;
    var c := a + b;
    forall i, j | 0 <= i < j < |c| ensures Before(g, c[i], c[j]) {
      if i < |a| <= j {
        assert c[i] in a && c[j] in b;
      } else if j < |a| {
        assert c[i] == a[i] && c[j] == a[j];
      } else {
        assert c[i] == b[i - |a|] && c[j] == b[j - |a|];
      }
    }
  }

  ghost predicate Listed(g: Labels, list: seq<Loc>, key: Path) {
    exists r | r in list :: r in g.path && Erase(g.path[r]) == key
  }

  /**
   The keys of the whole tree: the list from the root is strictly sorted, so no key comes twice,
   and it holds the complete keys of the tree and nothing else.
   */
  lemma {:induction false} ListsAllKeys(s: Art, g: Labels, k: nat, w: nat)
    requires Valid(s, g) && Schema(s, g, k, w)
    ensures Root in g.path && Sorted(g, Rest(s, g, Root, -1))
    ensures forall r :: r in Rest(s, g, Root, -1) <==> r in g.path && Content(s, r) == KeyEnd
    ensures forall key :: HasKey(s, g, key) <==> Listed(g, Rest(s, g, Root, -1), key)
  {
    RootLabel(s, g);
    SchemaPassSlots(s, g, k, w);
    RestSorted(s, g, Root, -1);
    hide Valid, Schema, Sorted, Erase;
    forall r ensures r in Rest(s, g, Root, -1) <==> r in g.path && Content(s, r) == KeyEnd {
      if r in Rest(s, g, Root, -1) { MembersBelow(s, g, Root, -1, r); }
      if r in g.path && Content(s, r) == KeyEnd { AllListed(s, g, Root, r); }
    }
    var all := Rest(s, g, Root, -1);
    forall key ensures HasKey(s, g, key) <==> Listed(g, all, key) {
      if HasKey(s, g, key) {
        var r :| r in g.path && Content(s, r) == KeyEnd && Erase(g.path[r]) == key;
        assert r in all;
      }
    }
  }
}
