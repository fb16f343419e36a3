/** Appending a key field to the radix tree. */
module ArtInsert {
  import opened ArtNodes
  import opened ArtTree
  import opened ArtGraft
  import opened ArtPatches
  import opened ArtPaths
  import opened ArtGrowth
  import opened ArtHalts

  // ---------- steps of the walk ----------

  /** The walk for `key` from `base` has used `off` bytes and stands at `l`. */
  ghost predicate Walk(g: Labels, base: Loc, key: seq<Byte>, off: nat, l: Loc) {
    off <= |key| && Along(g, base, key[..off], l) && (off == |key| ==> Arrives(g, base, key, l))
  }

  /** One tree grew into another below `base`, and the field ends at `slot`. */
  ghost predicate Appended(s: Art, g: Labels, s': Art, g': Labels, base: Loc, key: seq<Byte>, slot: Loc) {
    base in g.path && slot in g'.path && Grew(s, g, s', g', |g.path[base]|, g'.path[slot]) && Arrives(g', base, key, slot)
  }

  /** The walk halts here, and whether completing the field takes a span of more than 248 bytes. */
  ghost predicate HaltsWith(s: Art, g: Labels, base: Loc, key: seq<Byte>, off: nat, l: Loc, long: bool) {
    off < |key| && Halts(s, g, base, key, off, l) && (long <==> SpanNeeded(s, l, key, off) > MAX_SPAN)
  }

  lemma {:induction false} WalkHalts(s: Art, g: Labels, base: Loc, key: seq<Byte>, off: nat, l: Loc, long: bool)
    requires off < |key| && Walk(g, base, key, off, l) && NoStep(s, l, key, off)
    requires long <==> SpanNeeded(s, l, key, off) > MAX_SPAN
    ensures HaltsWith(s, g, base, key, off, l, long)
  {
  }

  lemma {:induction false} HaltTells(s: Art, g: Labels, base: Loc, key: seq<Byte>, off: nat, l: Loc, long: bool)
    requires Valid(s, g) && HaltsWith(s, g, base, key, off, l, long)
    ensures long <==> TooLongSpan(s, g, base, key)
  {
    hide Valid, Halts, SpanNeeded, TooLongSpan;
    HaltDecides(s, g, base, key, off, l);
  }

  lemma {:induction false} ArrivedTells(s: Art, g: Labels, base: Loc, key: seq<Byte>, l: Loc)
    requires Valid(s, g) && Walk(g, base, key, |key|, l)
    ensures !TooLongSpan(s, g, base, key)
  {
    hide Valid, SpanNeeded, TooLongSpan;
    HaltDecides(s, g, base, key, |key|, l);
  }

  lemma {:induction false} StartWalk(g: Labels, base: Loc, key: seq<Byte>)
    requires base in g.path
    ensures Walk(g, base, key, 0, base)
  {
    assert g.path[base][|g.path[base]|..] == [];
  }

  lemma {:induction false} WalkSlots(g: Labels, base: Loc, key: seq<Byte>, off: nat, l: Loc)
    requires Walk(g, base, key, off, l)
    ensures base in g.path && l in g.path && |g.path[base]| <= |g.path[l]|
  {
  }

  lemma {:induction false} WalkBlocks(s: Art, g: Labels, base: Loc, key: seq<Byte>, off: nat, l: Loc)
    requires off < |key| && Walk(g, base, key, off, l) && Content(s, l) == KeyEnd
    ensures Blocks(s, g, base, key, l)
  {
  }

  lemma {:induction false} WalkArrives(s: Art, g: Labels, base: Loc, key: seq<Byte>, l: Loc)
    requires Valid(s, g) && Walk(g, base, key, |key|, l)
    ensures Appended(s, g, s, g, base, key, l)
  {
    WalkSlots(g, base, key, |key|, l);
    GrewSame(s, g, |g.path[base]|, g.path[l]);
  }

  /** A slot that refers to something refers to a node of the arena. */
  lemma {:induction false} RefInArena(s: Art, g: Labels, l: Loc)
    requires Valid(s, g) && l in g.path && IsRef(Content(s, l))
    ensures Content(s, l).addr in s.nodes && NodeOk(s.nodes[Content(s, l).addr])
  {
  }

  lemma {:induction false} PassDown(s: Art, g: Labels, base: Loc, key: seq<Byte>, off: nat, l: Loc)
    requires Valid(s, g) && off < |key| && Walk(g, base, key, off, l) && IsRef(Content(s, l))
    requires s.nodes[Content(s, l).addr].End?
    ensures var l' := In(Content(s, l).addr, 1);
            l' in g.path && Walk(g, base, key, off, l') && Deeper(g, l') < Deeper(g, l)
  {
    var l' := In(Content(s, l).addr, 1);
    EndStep(s, g, l);
    AlongPass(g, base, key[..off], l, l');
    DeeperShrinks(g, l, l');
  }

  lemma {:induction false} BytesArrive(g: Labels, base: Loc, key: seq<Byte>, l: Loc, up: Path, more: seq<Byte>)
    requires Along(g, base, key, l) && g.path[l] == up + Bytes(more) && more != []
    ensures Arrives(g, base, key, l)
  {
    assert g.path[l][|g.path[l]| - 1] == B(more[|more| - 1]);
  }

  lemma {:induction false} TakeMore(key: seq<Byte>, off: nat, n: nat)
    requires off + n <= |key|
    ensures key[..off] + key[off..off + n] == key[..off + n] && (off + n == |key| ==> key[..off + n] == key)
    ensures off + n == |key| ==> key[off..off + n] == key[off..]
  {
  }

  /** A step over key bytes. */
  lemma {:induction false} BytesDown(g: Labels, base: Loc, key: seq<Byte>, off: nat, l: Loc, l': Loc, n: nat)
    requires 0 < n && off + n <= |key| && Walk(g, base, key, off, l) && l in g.path
    requires l' in g.path && g.path[l'] == g.path[l] + Bytes(key[off..off + n])
    ensures Walk(g, base, key, off + n, l') && Deeper(g, l') < Deeper(g, l)
  {
    AlongDown(g, base, key[..off], l, l', key[off..off + n]);
    TakeMore(key, off, n);
    DeeperShrinks(g, l, l');
    if off + n == |key| {
      BytesArrive(g, base, key, l', g.path[l], key[off..off + n]);
    }
  }

  lemma {:induction false} SpanDown(s: Art, g: Labels, base: Loc, key: seq<Byte>, off: nat, l: Loc, n: Node)
    requires Valid(s, g) && off < |key| && Walk(g, base, key, off, l) && IsRef(Content(s, l))
    requires l in g.path && Content(s, l).addr in s.nodes && s.nodes[Content(s, l).addr] == n && n.Span? && 0 < |n.bytes|
    requires off + |n.bytes| <= |key| && key[off..off + |n.bytes|] == n.bytes
    ensures var l' := In(Content(s, l).addr, 0);
            l' in g.path && Walk(g, base, key, off + |n.bytes|, l') && Deeper(g, l') < Deeper(g, l)
  {
    hide Walk, Deeper, Valid;
    SpanStep(s, g, l);
    BytesDown(g, base, key, off, l, In(Content(s, l).addr, 0), |n.bytes|);
  }

  lemma {:induction false} RadixDown(s: Art, g: Labels, base: Loc, key: seq<Byte>, off: nat, l: Loc, i: nat)
    requires Valid(s, g) && off < |key| && Walk(g, base, key, off, l) && l in g.path && IsRef(Content(s, l))
    requires Content(s, l).addr in s.nodes
    requires var n := s.nodes[Content(s, l).addr]; IsRadix(n) && HasChild(n, i) && ByteOf(n, i, key[off])
    ensures var l' := In(Content(s, l).addr, i);
            l' in g.path && Walk(g, base, key, off + 1, l') && Deeper(g, l') < Deeper(g, l)
  {
    hide Walk, Deeper, Valid;
    RadixStep(s, g, l, i, key[off]);
    assert key[off..off + 1] == [key[off]];
    BytesDown(g, base, key, off, l, In(Content(s, l).addr, i), 1);
  }

  lemma {:induction false} GrewLower(s: Art, g: Labels, s': Art, g': Labels, n: nat, m: nat, t: Path)
    requires Grew(s, g, s', g', n, t) && m <= n
    ensures Grew(s, g, s', g', m, t)
  {
    hide Valid, Preserved, NewSlot;
    forall l | l in g'.path ensures SlotOnTheWay(s, g, g'.path[l], Content(s', l), m, t) {
      assert SlotOnTheWay(s, g, g'.path[l], Content(s', l), n, t);
    }
  }

  /** The insertion below `at` completes the field. */
  lemma {:induction false} AppendDone(
      s: Art, g: Labels, s': Art, g': Labels, base: Loc, key: seq<Byte>, off: nat, at: Loc, slot: Loc)
    requires off < |key| && Walk(g, base, key, off, at) && at in g.path
    requires slot in g'.path && g'.path[slot] == g.path[at] + Bytes(key[off..])
    requires Grew(s, g, s', g', |g.path[at]|, g'.path[slot])
    ensures Appended(s, g, s', g', base, key, slot)
  {
    hide Walk, Valid, Preserved, Deeper, Arrives, Along, OnTheWay;
    WalkSlots(g, base, key, off, at);
    WalkKept(g, g', base, key, off, at);
    TakeMore(key, off, |key| - off);
    BytesDown(g', base, key, off, at, slot, |key| - off);
    WalkDone(g', base, key, slot);
    GrewLower(s, g, s', g', |g.path[at]|, |g.path[base]|, g'.path[slot]);
  }

  lemma {:induction false} WalkDone(g: Labels, base: Loc, key: seq<Byte>, l: Loc)
    requires Walk(g, base, key, |key|, l)
    ensures Arrives(g, base, key, l)
  {
  }

  lemma {:induction false} WalkKept(g: Labels, g': Labels, base: Loc, key: seq<Byte>, off: nat, l: Loc)
    requires off < |key| && Walk(g, base, key, off, l) && l in g.path && KeepsUpTo(g, g', |g.path[l]|)
    ensures Walk(g', base, key, off, l) && l in g'.path && g'.path[l] == g.path[l]
  {
    AlongKept(g, g', base, key[..off], l);
  }

  lemma {:induction false} AlongKept(g: Labels, g': Labels, base: Loc, key: seq<Byte>, l: Loc)
    requires Along(g, base, key, l) && KeepsUpTo(g, g', |g.path[l]|)
    ensures Along(g', base, key, l) && g'.path[l] == g.path[l]
  {
  }

  /** A span node behind a slot is as long as its slot says. */
  lemma {:induction false} SpanLenRead(s: Art, g: Labels, at: Loc)
    requires Valid(s, g) && at in g.path && IsRef(Content(s, at)) && s.nodes[Content(s, at).addr].Span?
    ensures var c := Content(s, at);
            var n := s.nodes[c.addr];
            && c.RefSpan? && SpanAt(s, g, at, c.addr, n) && 0 < |n.bytes| <= 248
            && |n.bytes| == DecodedLen(c.code, c.nbyte) == c.nbyte + 1
  {
    RefIsSpan(s, g, at);
    var n := s.nodes[Content(s, at).addr];
    assert NodeOk(n);
    SpanLengthExactly(|n.bytes|);
  }

  /** The span parts from the key, or goes on beyond it, after `idx` bytes. */
  lemma {:induction false} SpanStops(bytes: seq<Byte>, key: seq<Byte>, off: nat, idx: nat)
    requires off + idx <= |key| && idx < |bytes| && key[off..off + idx] == bytes[..idx]
    requires off + idx < |key| ==> key[off + idx] != bytes[idx]
    ensures off + |bytes| > |key| || key[off..off + |bytes|] != bytes
    ensures CommonLen(bytes, key[off..]) == idx
  {
    assert key[off..][..idx] == key[off..off + idx];
    CommonIs(bytes, key[off..], idx);
    if off + |bytes| <= |key| { assert key[off..off + |bytes|][idx] == key[off + idx]; }
  }

  class ArtIndex {
    var root: Slot
    var nodes: map<nat, Node>
    var nextAddr: nat
    ghost var g: Labels

    ghost predicate Ok()
      reads this
    {
      Valid(S(), g) && forall a | a in nodes :: a < nextAddr
    }

    function S(): Art
      reads this
    {
      Art(root, nodes)
    }

    constructor ()
      ensures Ok() && root == Unused && nodes == map[] && g == Labels(map[], map[Root := []])
    {
      root, nodes, nextAddr := Unused, map[], 0;
      g := Labels(map[], map[Root := []]);
    }

    /** Unlinks an old node, links new ones with `used` fresh addresses, and stores the slot. */
    method Install(at: Loc, gone: set<nat>, top: Slot, news: map<nat, Node>, used: nat, ghost g': Labels)
      requires forall a | a in nodes :: a < nextAddr
      requires forall a | a in news :: a < nextAddr + used
      modifies this
      ensures S() == Patched(old(S()), at, gone, top, news) && g == g'
      ensures nextAddr == old(nextAddr) + used && forall a | a in nodes :: a < nextAddr
    {
      PatchedKeys(S(), at, gone, top, news);
      var st := Patched(S(), at, gone, top, news);
      root, nodes, nextAddr, g := st.root, st.nodes, nextAddr + used, g';
    }

    /** Fills an unused slot with a span of the remaining key bytes. */
    method FillKey(at: Loc, bytes: seq<Byte>) returns (slot: Loc)
      requires Ok() && at in g.path && Content(S(), at) == Unused && |bytes| <= MAX_SPAN
      modifies this
      ensures Ok() && Grew(old(S()), old(g), S(), g, |old(g).path[at]|, old(g).path[at] + Bytes(bytes))
      ensures SlotIs(S(), g, slot, old(g).path[at] + Bytes(bytes), Unused)
    {
      if |bytes| == 0 {
        assert g.path[at] + Bytes(bytes) == g.path[at];
        GrewSame(S(), g, |g.path[at]|, g.path[at]);
        return at;
      }
      var a := nextAddr;
      FillResult(S(), g, at, bytes, a);
      Install(at, {}, SpanRef(|bytes|, a), map[a := Span(bytes, Unused)], 1, Relabeled(S(), g, FillPatch(g, at, bytes, a)));
      return In(a, 0);
    }

    /** The radix node with one more byte: the same size while it has room, else the next one. */
    static method Larger(n: Node, b: Byte) returns (m: Node, i: nat, ghost to: seq<nat>, ghost fro: seq<nat>)
      requires IsRadix(n) && NodeOk(n) && LacksByte(n, b)
      ensures IsRadix(m) && Extends(n, m, b, i, to, fro)
      ensures SameKind(n, m) <==> n.N256? || !Full(n)
    {
      to, fro := Identity(|n.alloc|), Identity(|n.alloc|);
      if n.N256? || !Full(n) {
        m, i := AddInPlace(n, b);
        return;
      }
      match n
      case N4(_, _, _) =>
        m, i := Promote4(n, b);
        fro := Identity(14);
      case N14(_, _, _) =>
        m, i := Promote14(n, b);
        fro := Identity(64);
      case N64(_, _, _) =>
        m, to, fro := Promote64(n, b);
        i := b;
    }

    /** Adds the byte to the radix node that the slot refers to. */
    method Extend(at: Loc, b: Byte) returns (slot: Loc)
      requires Ok() && at in g.path && IsRef(Content(S(), at))
      requires var n := nodes[Content(S(), at).addr]; IsRadix(n) && LacksByte(n, b)
      modifies this
      ensures Ok() && Grew(old(S()), old(g), S(), g, |old(g).path[at]|, old(g).path[at] + [B(b)])
      ensures SlotIs(S(), g, slot, old(g).path[at] + [B(b)], Unused)
    {
      var a := Content(S(), at).addr;
      var n := nodes[a];
      RefIsRadix(S(), g, at);
      var m, i;
      ghost var to, fro;
      m, i, to, fro := Larger(n, b);
      var a2, used := a, 0;
      if !SameKind(n, m) {
        a2, used := nextAddr, 1;
      }
      ExtendResult(S(), g, at, a, n, m, a2, b, i, to, fro);
      ghost var p := ExtendPatch(S(), g, at, a, n, m, a2, b, i, to, fro);
      Install(at, {a}, RadixRef(m, a2), map[a2 := m], used, Relabeled(S(), g, p));
      return In(a2, i);
    }

    /** A radix node takes the next key byte; the rest of the key goes below it. */
    method AddByte(at: Loc, bytes: seq<Byte>) returns (slot: Loc)
      requires Ok() && at in g.path && IsRef(Content(S(), at)) && 0 < |bytes| <= MAX_SPAN + 1
      requires var n := nodes[Content(S(), at).addr]; IsRadix(n) && LacksByte(n, bytes[0])
      modifies this
      ensures Ok() && Grew(old(S()), old(g), S(), g, |old(g).path[at]|, old(g).path[at] + Bytes(bytes))
      ensures SlotIs(S(), g, slot, old(g).path[at] + Bytes(bytes), Unused)
    {
      hide Grew, Valid, NodeOk, LacksByte;
      slot := Extend(at, bytes[0]);
      ghost var s1, g1 := S(), g;
      slot := FillKey(slot, bytes[1..]);
      ghost var up := old(g).path[at];
      FirstAndRest(up, bytes);
      GrewTrans(old(S()), old(g), s1, g1, S(), g, |up|, |up| + 1, up + [B(bytes[0])], up + Bytes(bytes));
    }

    /** Cuts the span that the slot refers to after `idx` bytes, into two new spans. */
    method Cut(at: Loc, idx: nat) returns (slot: Loc)
      requires forall a | a in nodes :: a < nextAddr
      requires IsRef(Content(S(), at)) && Content(S(), at).addr in nodes
      requires var a := Content(S(), at).addr;
               nodes[a].Span? && 0 < idx < |nodes[a].bytes| && at in g.path && In(a, 0) in g.path
      modifies this
      ensures CutDone(old(S()), old(g), at, old(nodes)[old(Content(S(), at)).addr], idx, S(), g, slot)
      ensures forall a | a in nodes :: a < nextAddr
    {
      var a := Content(S(), at).addr;
      var n := nodes[a];
      var a1, a2 := nextAddr, nextAddr + 1;
      ghost var p := CutPatch(g, at, a, n, idx, a1, a2);
      Install(at, {a}, SpanRef(idx, a1),
              map[a1 := Span(n.bytes[..idx], SpanRef(|n.bytes| - idx, a2)), a2 := Span(n.bytes[idx..], n.next)],
              2, Relabeled(S(), g, p));
      slot := In(a1, 0);
    }

    /** A one-byte span becomes a radix node that also leads to the new byte. */
    method Branch(at: Loc, b: Byte, ghost n: Node) returns (slot: Loc)
      requires Ok() && IsRef(Content(S(), at)) && SpanAt(S(), g, at, Content(S(), at).addr, n)
      requires |n.bytes| == 1 && n.bytes[0] != b
      modifies this
      ensures Ok() && Grew(old(S()), old(g), S(), g, |old(g).path[at]|, old(g).path[at] + [B(b)])
      ensures SlotIs(S(), g, slot, old(g).path[at] + [B(b)], Unused)
    {
      var a := Content(S(), at).addr;
      var node := nodes[a];
      var a2 := nextAddr;
      BranchResult(S(), g, at, a, n, b, a2);
      ghost var p := BranchPatch(g, at, a, n, b, a2);
      Install(at, {a}, Ref4(a2), map[a2 := BranchNode(node.bytes[0], b, node.next)], 1, Relabeled(S(), g, p));
      return In(a2, 1);
    }

    /**
     The rest of insertKeySpan once the span is known to part from the key after `idx` bytes:
     a span of the common bytes, a radix node unless the key ends there, and the remainders.
     */
    method SplitSpan(at: Loc, idx: nat, bytes: seq<Byte>, ghost n: Node) returns (slot: Loc)
      requires Ok() && IsRef(Content(S(), at)) && SpanAt(S(), g, at, Content(S(), at).addr, n)
      requires idx < |n.bytes| && idx <= |bytes| <= idx + 1 + MAX_SPAN && 0 < |bytes| && bytes[..idx] == n.bytes[..idx]
      requires idx < |bytes| ==> bytes[idx] != n.bytes[idx]
      modifies this
      ensures Ok() && Grew(old(S()), old(g), S(), g, |old(g).path[at]|, old(g).path[at] + Bytes(bytes))
      ensures slot in g.path && g.path[slot] == old(g).path[at] + Bytes(bytes)
    {
      hide OnTheWay, Preserved, KeepsUpTo, Valid, NodeOk, CutDone;
      if idx == 0 {
        slot := SplitFirst(at, bytes, n);
        return;
      }
      ghost var s0, g0 := S(), g;
      SpanHasChild(s0, g0, at, Content(S(), at).addr, n);
      slot := Cut(at, idx);
      AfterCut(s0, g0, at, n, idx, S(), g, slot, g0.path[at] + Bytes(bytes));
      if idx == |bytes| {
        assert bytes == bytes[..idx];
        return;
      }
      ghost var s1, g1 := S(), g;
      slot := SplitFirst(slot, bytes[idx..], Span(n.bytes[idx..], n.next));
      CutBytes(g0.path[at], bytes, idx);
      BytesInTwo(g0.path[at], bytes, idx);
      GrewTrans(s0, g0, s1, g1, S(), g, |g0.path[at]|, |g0.path[at]| + idx,
                g0.path[at] + Bytes(bytes), g0.path[at] + Bytes(bytes));
    }

    /** A span that parts from the key at its first byte. */
    method SplitFirst(at: Loc, bytes: seq<Byte>, ghost n: Node) returns (slot: Loc)
      requires Ok() && IsRef(Content(S(), at)) && SpanAt(S(), g, at, Content(S(), at).addr, n)
      requires 0 < |bytes| <= MAX_SPAN + 1 && bytes[0] != n.bytes[0]
      modifies this
      ensures Ok() && Grew(old(S()), old(g), S(), g, |old(g).path[at]|, old(g).path[at] + Bytes(bytes))
      ensures slot in g.path && g.path[slot] == old(g).path[at] + Bytes(bytes)
    {
      hide OnTheWay, Preserved, Valid, NodeOk, CutDone;
      ghost var up := g.path[at];
      ghost var s0, g0 := S(), g;
      ghost var one := n;
      if |nodes[Content(S(), at).addr].bytes| > 1 {
        SpanHasChild(s0, g0, at, Content(S(), at).addr, n);
        var cut := Cut(at, 1);
        AfterCut(s0, g0, at, n, 1, S(), g, cut, up + [B(bytes[0])]);
        one := nodes[Content(S(), at).addr];
      }
      ghost var s1, g1 := S(), g;
      slot := Branch(at, bytes[0], one);
      if s1 != s0 { GrewTrans(s0, g0, s1, g1, S(), g, |up|, |up|, up + [B(bytes[0])], up + [B(bytes[0])]); }
      ghost var s2, g2 := S(), g;
      slot := FillKey(slot, bytes[1..]);
      FirstAndRest(up, bytes);
      GrewTrans(s0, g0, s2, g2, S(), g, |up|, |up| + 1, up + [B(bytes[0])], up + Bytes(bytes));
    }

    /** The common length of a span and the key bytes from `off` on. */
    static method Common(bytes: seq<Byte>, key: seq<Byte>, off: nat, len: nat) returns (idx: nat)
      requires off + len <= |key| && len <= |bytes|
      ensures idx <= len && key[off..off + idx] == bytes[..idx]
      ensures idx < len ==> key[off + idx] != bytes[idx]
    {
      idx := 0;
      while idx < len
        invariant idx <= len && key[off..off + idx] == bytes[..idx]
      {
        if key[off + idx] != bytes[idx] {
          return;
        }
        assert key[off..off + idx + 1] == key[off..off + idx] + [bytes[idx]];
        idx := idx + 1;
      }
    }

    /** insertKeySpan: past the span when the key agrees with all of it, otherwise the span is split. */
    method InsertKeySpan(ghost base: Loc, key: seq<Byte>, off: nat, at: Loc)
        returns (slot: Loc, next: nat, done: bool, long: bool)
      requires Ok() && off < |key| && Walk(g, base, key, off, at) && at in g.path
      requires IsRef(Content(S(), at)) && Content(S(), at).addr in nodes && nodes[Content(S(), at).addr].Span?
      modifies this
      ensures Ok()
      ensures done ==> Appended(old(S()), old(g), S(), g, base, key, slot)
      ensures !done ==> S() == old(S()) && g == old(g) && next <= |key| && at in g.path && slot in g.path
      ensures !done && !long ==> Walk(g, base, key, next, slot) && Deeper(g, slot) < Deeper(g, at)
      ensures long ==> !done
      ensures done || long ==> HaltsWith(old(S()), old(g), base, key, off, at, long)
    {
      hide Walk, Grew, Arrives, SpanAt, Valid, Deeper, HaltsWith;
      RefInArena(S(), g, at);
      var c := Content(S(), at);
      var n := nodes[c.addr];
      SpanLenRead(S(), g, at);
      var max, len := c.nbyte + 1, DecodedLen(c.code, c.nbyte);
      if len > |key| - off {
        len := |key| - off;
      }
      var idx := Common(n.bytes, key, off, len);
      if idx == max {
        assert n.bytes[..idx] == n.bytes;
        SpanDown(S(), g, base, key, off, at, n);
        return In(c.addr, 0), off + idx, false, false;
      }
      ghost var s0, g0 := S(), g;
      SpanStops(n.bytes, key, off, idx);
      assert NoStep(s0, at, key, off);
      if |key| - off > idx + 1 + MAX_SPAN {
        WalkHalts(s0, g0, base, key, off, at, true);
        return at, off, false, true;
      }
      WalkHalts(s0, g0, base, key, off, at, false);
      assert key[off..][..idx] == key[off..off + idx];
      slot := SplitSpan(at, idx, key[off..], n);
      AppendDone(s0, g0, S(), g, base, key, off, at, slot);
      next, done, long := |key|, true, false;
    }

    /** insertKeyNode4, 14, 64 and 256: past the radix node when it has the byte, otherwise the byte is added. */
    method InsertKeyNode(ghost base: Loc, key: seq<Byte>, off: nat, at: Loc)
        returns (slot: Loc, next: nat, done: bool, long: bool)
      requires Ok() && off < |key| && Walk(g, base, key, off, at) && at in g.path
      requires IsRef(Content(S(), at)) && Content(S(), at).addr in nodes && IsRadix(nodes[Content(S(), at).addr])
      modifies this
      ensures Ok()
      ensures done ==> Appended(old(S()), old(g), S(), g, base, key, slot)
      ensures !done ==> S() == old(S()) && g == old(g) && next <= |key| && at in g.path && slot in g.path
      ensures !done && !long ==> Walk(g, base, key, next, slot) && Deeper(g, slot) < Deeper(g, at)
      ensures long ==> !done
      ensures done || long ==> HaltsWith(old(S()), old(g), base, key, off, at, long)
    {
      hide Walk, Grew, Arrives, RadixAt, Valid, Deeper, HaltsWith;
      RefInArena(S(), g, at);
      var c := Content(S(), at);
      var n := nodes[c.addr];
      RefIsRadix(S(), g, at);
      var idx := FindByte(n, key[off]);
      if idx < |n.radix| {
        RadixDown(S(), g, base, key, off, at, idx);
        return In(c.addr, idx), off + 1, false, false;
      }
      ghost var s0, g0 := S(), g;
      WalkHalts(s0, g0, base, key, off, at, |key| - off > MAX_SPAN + 1);
      if |key| - off > MAX_SPAN + 1 {
        return at, off, false, true;
      }
      slot := AddByte(at, key[off..]);
      AppendDone(s0, g0, S(), g, base, key, off, at, slot);
      next, done, long := |key|, true, false;
    }

    /**
     artAppendKeyFld: walks down along the key and inserts what is missing; the slot where the
     field ends. `long` stops it where it would write a span whose length is not read back.
     */
    method AppendKeyFld(base: Loc, key: seq<Byte>) returns (slot: Loc, long: bool)
      requires Ok() && base in g.path
      modifies this
      ensures Ok()
      ensures long <==> old(TooLongSpan(S(), g, base, key))
      ensures long ==> S() == old(S()) && g == old(g)
      ensures !long ==> Appended(old(S()), old(g), S(), g, base, key, slot)
                        || (Blocks(S(), g, base, key, slot) && S() == old(S()) && g == old(g))
    {
      hide Valid, Walk, Grew, Arrives, Deeper, Along, HaltsWith, TooLongSpan;
      slot, long := base, false;
      var off: nat, done := 0, false;
      StartWalk(g, base, key);
      ghost var s0, g0 := S(), g;
      while off < |key|
        invariant Ok() && S() == s0 && g == g0 && slot in g.path && off <= |key| && Walk(g, base, key, off, slot)
        invariant !done && !long
        decreases Deeper(g, slot)
      {
        var c := Content(S(), slot);
        if c == KeyEnd {
          WalkBlocks(S(), g, base, key, off, slot);
          WalkHalts(s0, g0, base, key, off, slot, false);
          HaltTells(s0, g0, base, key, off, slot, false);
          return;
        }
        ghost var at, was := slot, off;
        if c == Unused {
          WalkHalts(s0, g0, base, key, off, slot, |key| - off > MAX_SPAN);
          HaltTells(s0, g0, base, key, off, slot, |key| - off > MAX_SPAN);
          if |key| - off > MAX_SPAN {
            long := true;
            return;
          }
          slot := FillKey(slot, key[off..]);
          AppendDone(s0, g0, S(), g, base, key, off, at, slot);
          return;
        }
        RefInArena(S(), g, slot);
        match nodes[c.addr] {
          case End(_, _) =>
            slot := In(c.addr, 1);
            PassDown(S(), g, base, key, off, at);
          case Span(_, _) =>
            slot, off, done, long := InsertKeySpan(base, key, off, slot);
          case _ =>
            slot, off, done, long := InsertKeyNode(base, key, off, slot);
        }
        if done || long {
          HaltTells(s0, g0, base, key, was, at, long);
          return;
        }
      }
      WalkArrives(s0, g0, base, key, slot);
      ArrivedTells(s0, g0, base, key, slot);
    }
  }
}
