/** The ordered cursor over the radix tree: an explicit stack of slots with the position reached in each. */
module ArtCursor {
  import opened ArtNodes
  import opened ArtTree
  import opened ArtPatches
  import opened ArtPaths
  import opened ArtInsert
  import opened ArtSchema
  import opened ArtOrder

  const MAX_CURSOR := 4096 // frames of the cursor stack

  /** The key bytes along a path. */
  function KeyBytes(p: Path): seq<Byte> {
    if p == [] then [] else KeyBytes(p[..|p| - 1]) + (if p[|p| - 1].B? then [p[|p| - 1].b] else [])
  }

  lemma {:induction false} KeyBytesConcat(p: Path, q: Path)
    ensures KeyBytes(p + q) == KeyBytes(p) + KeyBytes(q)
  {
    if q == [] {
      assert p + q == p;
    } else {
      assert (p + q)[..|p + q| - 1] == p + q[..|q| - 1];
      KeyBytesConcat(p, q[..|q| - 1]);
    }
  }

  lemma {:induction false} KeyBytesOf(bytes: seq<Byte>)
    ensures KeyBytes(Bytes(bytes)) == bytes
  {
    if bytes != [] {
      var n := |bytes| - 1;
      assert Bytes(bytes)[..n] == Bytes(bytes[..n]);
      KeyBytesOf(bytes[..n]);
    }
  }

  /** A cursor stack entry: the slot and its address, the key offset, the position reached. */
  datatype Frame = Frame(slot: Slot, addr: Loc, off: nat, ch: int)

  ghost predicate FrameOk(s: Art, g: Labels, f: Frame) {
    && f.addr in g.path && f.slot == Content(s, f.addr) && -1 <= f.ch < 256
    && f.off == |KeyBytes(g.path[f.addr])|
  }

  /** Every frame lies below the frame under it. */
  ghost predicate StackOk(s: Art, g: Labels, stack: seq<Frame>) {
    && (forall i | 0 <= i < |stack| :: FrameOk(s, g, stack[i]))
    && forall i | 0 <= i < |stack| - 1 :: g.path[stack[i].addr] < g.path[stack[i + 1].addr]
  }

  function Top(stack: seq<Frame>): Frame
    requires stack != []
  {
    stack[|stack| - 1]
  }

  function Under(stack: seq<Frame>): seq<Frame>
    requires stack != []
  {
    stack[..|stack| - 1]
  }

  /** The key buffer holds the key bytes on the way to the top of the stack. */
  ghost predicate KeyOk(g: Labels, stack: seq<Frame>, key: seq<Byte>) {
    stack != [] ==>
      var f := Top(stack);
      f.addr in g.path && f.off <= |key| && key[..f.off] == KeyBytes(g.path[f.addr])
  }

  /** The key ends still to come, in order. */
  ghost function Remaining(s: Art, g: Labels, stack: seq<Frame>): seq<Loc>
    requires Valid(s, g) && StackOk(s, g, stack)
  {
    if stack == [] then [] else
      assert FrameOk(s, g, Top(stack));
      Rest(s, g, Top(stack).addr, Top(stack).ch) + Remaining(s, g, Under(stack))
  }

  /** The turns still to come. */
  ghost function Work(s: Art, g: Labels, stack: seq<Frame>): nat
    requires Valid(s, g) && StackOk(s, g, stack)
  {
    if stack == [] then 0 else
      assert FrameOk(s, g, Top(stack));
      Turns(s, g, Top(stack).addr, Top(stack).ch) + Work(s, g, Under(stack))
  }

  /** The frame lies below the top of the stack. */
  ghost predicate Below(g: Labels, under: seq<Frame>, f: Frame) {
    under != [] ==> Top(under).addr in g.path && f.addr in g.path && g.path[Top(under).addr] < g.path[f.addr]
  }

  lemma {:induction false} StackSplit(s: Art, g: Labels, under: seq<Frame>, f: Frame)
    ensures StackOk(s, g, under + [f]) <==> StackOk(s, g, under) && FrameOk(s, g, f) && Below(g, under, f)
    ensures Top(under + [f]) == f && Under(under + [f]) == under
  {
    var stack := under + [f];
    assert forall i | 0 <= i < |under| :: stack[i] == under[i];
    assert stack[|under|] == f;
    if under != [] {
      assert stack[|under| - 1] == Top(under);
      assert FrameOk(s, g, Top(under)) ==> Top(under).addr in g.path;
    }
    hide FrameOk;
    if StackOk(s, g, under) && FrameOk(s, g, f) && Below(g, under, f) {
      assert forall i | 0 <= i < |stack| :: FrameOk(s, g, stack[i]);
    }
  }

  lemma {:induction false} TopAndUnder(s: Art, g: Labels, under: seq<Frame>, f: Frame)
    requires Valid(s, g) && StackOk(s, g, under + [f])
    ensures FrameOk(s, g, f) && StackOk(s, g, under) && Below(g, under, f)
    ensures Remaining(s, g, under + [f]) == Rest(s, g, f.addr, f.ch) + Remaining(s, g, under)
    ensures Work(s, g, under + [f]) == Turns(s, g, f.addr, f.ch) + Work(s, g, under)
  {
    StackSplit(s, g, under, f);
    hide Valid, Rest, Turns, StackOk;
  }

  lemma {:induction false} StackOn(s: Art, g: Labels, under: seq<Frame>, f: Frame)
    requires Valid(s, g) && StackOk(s, g, under) && FrameOk(s, g, f) && Below(g, under, f)
    ensures StackOk(s, g, under + [f])
    ensures Remaining(s, g, under + [f]) == Rest(s, g, f.addr, f.ch) + Remaining(s, g, under)
    ensures Work(s, g, under + [f]) == Turns(s, g, f.addr, f.ch) + Work(s, g, under)
  {
    hide Valid, StackOk, Rest, Turns, Below;
    StackSplit(s, g, under, f);
  }

  // ---------- what a turn of the cursor does to the stack ----------

  /** The key end on top is taken. */
  lemma {:induction false} TakeKey(s: Art, g: Labels, under: seq<Frame>, f: Frame)
    requires Valid(s, g) && StackOk(s, g, under + [f]) && f.slot == KeyEnd && f.ch < 0
    ensures var stack := under + [f.(ch := 0)];
            StackOk(s, g, stack) && Remaining(s, g, under + [f]) == [f.addr] + Remaining(s, g, stack)
  {
    hide Valid, StackOk, Remaining, Work, Turns;
    TopAndUnder(s, g, under, f);
    StackOn(s, g, under, f.(ch := 0));
    assert Rest(s, g, f.addr, f.ch) == [f.addr] && Rest(s, g, f.addr, 0) == [];
  }

  lemma {:induction false} KeyPrefixOk(p: Path, q: Path, key: seq<Byte>, n: nat)
    requires p <= q && n <= |key| && key[..n] == KeyBytes(q)
    ensures |KeyBytes(p)| <= n && key[..|KeyBytes(p)|] == KeyBytes(p)
  {
    assert q == p + q[|p|..];
    KeyBytesConcat(p, q[|p|..]);
    assert key[..|KeyBytes(p)|] == key[..n][..|KeyBytes(p)|];
  }

  /** The frame on top has nothing more to offer. */
  lemma {:induction false} PopFrame(s: Art, g: Labels, under: seq<Frame>, f: Frame, key: seq<Byte>)
    requires Valid(s, g) && StackOk(s, g, under + [f]) && f.addr in g.path && -1 <= f.ch < 256
    requires Rest(s, g, f.addr, f.ch) == [] && KeyOk(g, under + [f], key)
    ensures StackOk(s, g, under) && KeyOk(g, under, key)
    ensures Remaining(s, g, under) == Remaining(s, g, under + [f]) && Work(s, g, under) < Work(s, g, under + [f])
  {
    hide Valid, Rest, Turns, Remaining, Work, KeyBytes;
    TopAndUnder(s, g, under, f);
    StackSplit(s, g, under, f);
    if under != [] {
      assert FrameOk(s, g, Top(under));
      hide StackOk;
      KeyPrefixOk(g.path[Top(under).addr], g.path[f.addr], key, f.off);
    }
  }

  /** A child of the frame on top goes onto the stack. */
  lemma {:induction false} PushFrame(
      s: Art, g: Labels, under: seq<Frame>, f: Frame, p: int, c: Loc, added: seq<Byte>, key: seq<Byte>)
    requires Valid(s, g) && StackOk(s, g, under + [f]) && Inner(s, g, f.addr) && -1 <= f.ch < p < 256
    requires c.In? && c.addr == Content(s, f.addr).addr && ChildAt(NodeAt(s, g, f.addr), p, c.i)
    requires forall q | f.ch < q < p :: Empty(NodeAt(s, g, f.addr), q)
    requires key == KeyBytes(g.path[f.addr]) && c in g.path && KeyBytes(g.path[c]) == key + added
    ensures var stack := under + [f.(ch := p)] + [Frame(Content(s, c), c, |key + added|, -1)];
            && StackOk(s, g, stack) && KeyOk(g, stack, key + added)
            && Remaining(s, g, stack) == Remaining(s, g, under + [f]) && Work(s, g, stack) < Work(s, g, under + [f])
  {
    hide Valid, StackOk, Remaining, Work, NodeOk, ChildAt, Rest, Turns, KeyBytes, Empty;
    TopAndUnder(s, g, under, f);
    NextChild(s, g, f.addr, f.ch, p, c);
    hide Inner;
    var f1, f2 := f.(ch := p), Frame(Content(s, c), c, |key + added|, -1);
    StackOn(s, g, under, f1);
    StackSplit(s, g, under, f1);
    StackOn(s, g, under + [f1], f2);
    StackSplit(s, g, under + [f1], f2);
    assert (key + added)[..f2.off] == key + added;
  }

  /** As long as the stack is not full, so many steps lead to its top. */
  lemma {:induction false} StackDepth(s: Art, g: Labels, stack: seq<Frame>)
    requires StackOk(s, g, stack) && stack != []
    ensures Top(stack).addr in g.path && |stack| <= |g.path[Top(stack).addr]| + 1
  {
    assert FrameOk(s, g, Top(stack));
    if |stack| > 1 {
      var under := Under(stack);
      assert StackOk(s, g, under);
      StackDepth(s, g, under);
      assert stack[|stack| - 2] == Top(under);
    }
  }

  // ---------- the next child of a node ----------

  /** slot4x14: the slot with the least key byte after `ch`; 256 when there is none. */
  method Slot4x14(ch: int, alloc: seq<bool>, keys: seq<Byte>) returns (slot: nat)
    requires |alloc| == |keys| <= 14 && -1 <= ch < 256
    requires KeysDistinct(alloc, keys)
    ensures slot < |keys| ==> alloc[slot] && ch < keys[slot]
    ensures slot < |keys| ==> forall i | 0 <= i < |keys| && alloc[i] && ch < keys[i] :: keys[slot] <= keys[i]
    ensures slot >= |keys| ==> slot == 256 && forall i | 0 <= i < |keys| && alloc[i] :: keys[i] <= ch
  {
    var radix := new nat[256](_ => 0xff);
    var idx := 0;
    while idx < |keys|
      invariant 0 <= idx <= |keys|
      invariant forall i | 0 <= i < idx && alloc[i] :: radix[keys[i]] == i
      invariant forall b | 0 <= b < 256 && radix[b] < 0xff :: radix[b] < idx && alloc[radix[b]] && keys[radix[b]] == b
    {
      if alloc[idx] {
        radix[keys[idx]] := idx;
      }
      idx := idx + 1;
    }
    var c := ch + 1;
    while c < 256
      invariant ch + 1 <= c <= 256
      invariant forall b | ch < b < c :: radix[b] >= 0xff
    {
      if radix[c] < 0xff {
        return radix[c];
      }
      c := c + 1;
    }
    return 256;
  }

  /** slot64: the least key byte after `ch` that the node maps; 256 when there is none. */
  method Slot64(ch: int, alloc: seq<bool>, keys: seq<Byte>) returns (c: nat)
    requires |alloc| == 64 && |keys| == 256 && -1 <= ch < 256
    requires forall b | 0 <= b < 256 :: keys[b] != NONE ==> keys[b] < 64
    ensures ch < c <= 256 && forall b: nat | ch < b < c :: keys[b] == NONE || !alloc[keys[b]]
    ensures c < 256 ==> keys[c] != NONE && alloc[keys[c]]
  {
    c := ch + 1;
    while c < 256
      invariant ch < c <= 256 && forall b: nat | ch < b < c :: keys[b] == NONE || !alloc[keys[b]]
    {
      if keys[c] < 0xff && alloc[keys[c]] {
        return;
      }
      c := c + 1;
    }
  }

  method Slot256(ch: int, alloc: seq<bool>) returns (c: nat)
    requires |alloc| == 256 && -1 <= ch < 256
    ensures ch < c <= 256 && (forall b: nat | ch < b < c :: !alloc[b]) && (c < 256 ==> alloc[c])
  {
    c := ch + 1;
    while c < 256 && !alloc[c]
      invariant ch < c <= 256 && forall b: nat | ch < b < c :: !alloc[b]
    {
      c := c + 1;
    }
  }

  /** The next position of a radix node after `ch`, and its slot; position 256 when there is none. */
  method NextByte(n: Node, ch: int) returns (b: nat, i: nat)
    requires IsRadix(n) && NodeOk(n) && -1 <= ch < 256
    ensures ch < b <= 256 && (b < 256 ==> i < |n.radix| && ChildAt(n, b, i))
    ensures forall q | ch < q < b :: Empty(n, q)
  {
    i := 0;
    match n
    case N4(alloc, keys, radix) =>
      i := Slot4x14(ch, alloc, keys);
      b := if i >= 4 then 256 else keys[i];
    case N14(alloc, keys, radix) =>
      i := Slot4x14(ch, alloc, keys);
      b := if i >= 14 then 256 else keys[i];
    case N64(alloc, keys, radix) =>
      b := Slot64(ch, alloc, keys);
      if b < 256 {
        i := keys[b];
      }
    case N256(alloc, radix) =>
      b := Slot256(ch, alloc);
      i := b;
  }

  lemma {:induction false} SpanPositions(n: Node, ch: int, p: int)
    requires n.Span? && (ch >= 0 || p == 0)
    ensures forall q | ch < q < p :: Empty(n, q)
    ensures ch < 0 ==> ChildAt(n, 0, 0)
  {
  }

  lemma {:induction false} EndPositions(n: Node, ch: int, p: int)
    requires n.End? && ch >= -1 && (ch >= 1 || p == ch + 1)
    ensures forall q | ch < q < p :: Empty(n, q)
    ensures ch < 1 ==> ChildAt(n, ch + 1, ch + 1)
  {
  }

  // ---------- the labels of the children ----------

  lemma {:induction false} RadixKey(s: Art, g: Labels, l: Loc, i: nat, b: Byte)
    requires Inner(s, g, l) && IsRadix(NodeAt(s, g, l)) && ChildAt(NodeAt(s, g, l), b, i)
    ensures var c := In(Content(s, l).addr, i);
            c in g.path && KeyBytes(g.path[c]) == KeyBytes(g.path[l]) + [b]
  {
    RadixStep(s, g, l, i, b);
    KeyBytesConcat(g.path[l], Bytes([b]));
    KeyBytesOf([b]);
  }

  lemma {:induction false} SpanKey(s: Art, g: Labels, l: Loc)
    requires Inner(s, g, l) && NodeAt(s, g, l).Span?
    ensures var c := In(Content(s, l).addr, 0);
            c in g.path && KeyBytes(g.path[c]) == KeyBytes(g.path[l]) + NodeAt(s, g, l).bytes
  {
    SpanStep(s, g, l);
    KeyBytesConcat(g.path[l], Bytes(NodeAt(s, g, l).bytes));
    KeyBytesOf(NodeAt(s, g, l).bytes);
  }

  lemma {:induction false} EndKey(s: Art, g: Labels, l: Loc, i: nat)
    requires Inner(s, g, l) && NodeAt(s, g, l).End? && i < 2
    ensures var c := In(Content(s, l).addr, i);
            c in g.path && KeyBytes(g.path[c]) == KeyBytes(g.path[l]) + []
  {
    hide Valid, KeyBytes, NodeOk;
    EndStep(s, g, l);
    NoByteAdded(g.path[l], if i == 0 then Next else Pass);
  }

  lemma {:induction false} NoByteAdded(p: Path, x: Sym)
    requires !x.B?
    ensures KeyBytes(p + [x]) == KeyBytes(p) + []
  {
    assert (p + [x])[..|p|] == p;
  }

  // ---------- one turn of the cursor ----------

  /** The key bytes on the edge to the child at position `p`. */
  function EdgeBytes(n: Node, p: Byte): seq<Byte> {
    match n
    case End(_, _) => []
    case Span(bytes, _) => bytes
    case _ => [p]
  }

  /** The next child of a node after position `ch`; position 256 when there is none. */
  method NextKid(n: Node, ch: int) returns (p: nat, i: nat)
    requires NodeOk(n) && -1 <= ch < 256
    ensures ch < p <= 256 && (p < 256 ==> ChildAt(n, p, i))
    ensures forall q | ch < q < p :: Empty(n, q)
  {
    match n {
      case End(_, _) =>
        i := if ch < 1 then ch + 1 else 0;
        p := if ch < 1 then ch + 1 else 256;
        EndPositions(n, ch, p);
      case Span(_, _) =>
        p, i := if ch < 0 then 0 else 256, 0;
        SpanPositions(n, ch, p);
      case _ =>
        p, i := NextByte(n, ch);
    }
  }

  /** A stack and a key buffer that belong together. */
  ghost predicate Good(s: Art, g: Labels, stack: seq<Frame>, key: seq<Byte>) {
    Valid(s, g) && StackOk(s, g, stack) && KeyOk(g, stack, key)
  }

  /** A turn that finds no key: the same keys are still to come, and less work is left. */
  ghost predicate Turned(s: Art, g: Labels, stack: seq<Frame>, stack': seq<Frame>, key': seq<Byte>)
    requires Valid(s, g) && StackOk(s, g, stack)
  {
    Good(s, g, stack', key') && Remaining(s, g, stack') == Remaining(s, g, stack) && Work(s, g, stack') < Work(s, g, stack)
  }

  lemma {:induction false} TopOk(s: Art, g: Labels, under: seq<Frame>, f: Frame, key: seq<Byte>)
    requires Good(s, g, under + [f], key)
    ensures FrameOk(s, g, f) && f.off <= |key| && key[..f.off] == KeyBytes(g.path[f.addr])
    ensures Good(s, g, under + [f], key[..f.off])
    ensures IsRef(f.slot) ==> Inner(s, g, f.addr)
  {
    hide StackOk, KeyBytes;
    StackSplit(s, g, under, f);
    assert key[..f.off][..f.off] == key[..f.off];
  }

  lemma {:induction false} KidKey(s: Art, g: Labels, l: Loc, p: Byte, i: nat)
    requires Inner(s, g, l) && ChildAt(NodeAt(s, g, l), p, i)
    ensures var c := In(Content(s, l).addr, i);
            c in g.path && KeyBytes(g.path[c]) == KeyBytes(g.path[l]) + EdgeBytes(NodeAt(s, g, l), p)
  {
    hide Inner, Valid, KeyBytes;
    match NodeAt(s, g, l) {
      case End(_, _) => EndKey(s, g, l, i);
      case Span(_, _) => SpanKey(s, g, l);
      case _ => RadixKey(s, g, l, i, p);
    }
  }

  lemma {:induction false} TurnPush(s: Art, g: Labels, under: seq<Frame>, f: Frame, key: seq<Byte>, p: Byte, i: nat, n: Node)
    requires Good(s, g, under + [f], key) && |key| == f.off && IsRef(f.slot) && f.ch < p
    requires f.slot.addr in s.nodes && s.nodes[f.slot.addr] == n && ChildAt(n, p, i)
    requires forall q | f.ch < q < p :: Empty(n, q)
    ensures StackOk(s, g, under + [f]) && Valid(s, g)
    ensures var key' := key + EdgeBytes(n, p);
            Turned(s, g, under + [f], under + [f.(ch := p)] + [Frame(SlotAt(n, i), In(f.slot.addr, i), |key'|, -1)], key')
  {
    hide Valid, StackOk, KeyOk, Remaining, Work, KeyBytes, NodeOk, ChildAt, Empty;
    TopOk(s, g, under, f, key);
    assert key[..f.off] == key;
    KidKey(s, g, f.addr, p, i);
    PushFrame(s, g, under, f, p, In(f.slot.addr, i), EdgeBytes(n, p), key);
  }

  lemma {:induction false} TurnPop(s: Art, g: Labels, under: seq<Frame>, f: Frame, key: seq<Byte>)
    requires Good(s, g, under + [f], key) && !(f.slot == KeyEnd && f.ch < 0)
    requires IsRef(f.slot) ==>
               f.slot.addr in s.nodes && -1 <= f.ch < 256 && forall q | f.ch < q < 256 :: Empty(s.nodes[f.slot.addr], q)
    ensures StackOk(s, g, under + [f]) && Valid(s, g) && Turned(s, g, under + [f], under, key)
  {
    hide Valid, StackOk, KeyOk, Remaining, Work, KeyBytes, NodeOk, Empty;
    TopOk(s, g, under, f, key);
    if IsRef(f.slot) {
      NoMoreChildren(s, g, f.addr, f.ch);
    } else {
      assert Rest(s, g, f.addr, f.ch) == [];
    }
    PopFrame(s, g, under, f, key);
  }

  /** What artNextKey did when it found a key. */
  ghost predicate Took(s: Art, g: Labels, stack: seq<Frame>, stack': seq<Frame>, key': seq<Byte>)
    requires Valid(s, g) && StackOk(s, g, stack)
  {
    Good(s, g, stack', key') && stack' != [] &&
    var all := Remaining(s, g, stack);
    all != [] && Remaining(s, g, stack') == all[1..] && all[0] in g.path && key' == KeyBytes(g.path[all[0]])
  }

  lemma {:induction false} TurnTake(s: Art, g: Labels, under: seq<Frame>, f: Frame, key: seq<Byte>)
    requires Good(s, g, under + [f], key) && |key| == f.off && f.slot == KeyEnd && f.ch < 0
    ensures StackOk(s, g, under + [f]) && Valid(s, g) && Took(s, g, under + [f], under + [f.(ch := 0)], key)
  {
    hide Valid, StackOk, Remaining, Work, KeyBytes;
    TopOk(s, g, under, f, key);
    assert key[..f.off] == key;
    TakeKey(s, g, under, f);
    StackSplit(s, g, under, f.(ch := 0));
  }

  lemma {:induction false} TookAfter(s: Art, g: Labels, stack: seq<Frame>, stack1: seq<Frame>, stack2: seq<Frame>, key: seq<Byte>)
    requires Valid(s, g) && StackOk(s, g, stack) && StackOk(s, g, stack1)
    requires Remaining(s, g, stack1) == Remaining(s, g, stack) && Took(s, g, stack1, stack2, key)
    ensures Took(s, g, stack, stack2, key)
  {
  }

  class Cursor {
    var stack: seq<Frame>
    var key: seq<Byte> // the first keySize bytes of the key buffer
    var atRightEOF: bool

    ghost predicate Ok(s: Art, g: Labels)
      reads this
    {
      Good(s, g, stack, key) && (atRightEOF <==> stack == [])
    }

    ghost function ToCome(s: Art, g: Labels): seq<Loc>
      requires Ok(s, g)
      reads this
    {
      Remaining(s, g, stack)
    }

    /** artCursor without start and limits: the cursor stands before the whole tree. */
    constructor (index: ArtIndex)
      requires index.Ok()
      ensures Ok(index.S(), index.g) && !atRightEOF
      ensures Root in index.g.path && ToCome(index.S(), index.g) == Rest(index.S(), index.g, Root, -1)
    {
      stack := [Frame(index.root, Root, 0, -1)];
      key := [];
      atRightEOF := false;
      new;
      RootLabel(index.S(), index.g);
      assert stack == [] + [Frame(index.root, Root, 0, -1)];
      StackSplit(index.S(), index.g, [], Frame(index.root, Root, 0, -1));
      TopAndUnder(index.S(), index.g, [], Frame(index.root, Root, 0, -1));
    }

    /** One turn of the loop: a key end is taken, a child pushed, or the top frame popped. */
    method Turn(index: ArtIndex) returns (found: bool)
      requires index.Ok() && Good(index.S(), index.g, stack, key) && stack != []
      modifies this`stack, this`key
      ensures found ==> Took(index.S(), index.g, old(stack), stack, key)
      ensures !found ==> Turned(index.S(), index.g, old(stack), stack, key)
    {
      ghost var s, g := index.S(), index.g;
      var top := |stack| - 1;
      var f := stack[top];
      ghost var under := stack[..top];
      assert stack == under + [f];
      hide Valid, StackOk, KeyOk, Took, Turned, Good, NodeOk, Empty, ChildAt;
      TopOk(s, g, under, f, key);
      key := key[..f.off];
      if f.slot == KeyEnd && f.ch < 0 {
        TurnTake(s, g, under, f, key);
        stack := stack[..top] + [f.(ch := 0)];
        return true;
      }
      if IsRef(f.slot) {
        var n := index.nodes[f.slot.addr];
        var p, i := NextKid(n, f.ch);
        if p < 256 {
          TurnPush(s, g, under, f, key, p, i, n);
          key := key + EdgeBytes(n, p);
          stack := stack[..top] + [f.(ch := p)] + [Frame(SlotAt(n, i), In(f.slot.addr, i), |key|, -1)];
          return false;
        }
      }
      TurnPop(s, g, under, f, key);
      stack := stack[..top];
      found := false;
    }

    /**
     artNextKey: moves to the next complete key. It fails when no key is left, and from then
     on, or when the stack is full.
     */
    method NextKey(index: ArtIndex) returns (ok: bool)
      requires index.Ok() && Ok(index.S(), index.g)
      modifies this
      ensures Ok(index.S(), index.g)
      ensures ok ==> Took(index.S(), index.g, old(stack), stack, key)
      ensures !ok && |stack| < MAX_CURSOR ==> atRightEOF && old(ToCome(index.S(), index.g)) == []
      ensures old(atRightEOF) ==> !ok && atRightEOF && stack == old(stack) && key == old(key)
    {
      ghost var s, g, stack0 := index.S(), index.g, stack;
      if atRightEOF {
        return false;
      }
      hide Valid, StackOk, KeyOk;
      while |stack| < MAX_CURSOR
        invariant index.Ok() && index.S() == s && index.g == g && Good(s, g, stack, key)
        invariant stack != [] && !atRightEOF && Remaining(s, g, stack) == Remaining(s, g, stack0)
        decreases Work(s, g, stack)
      {
        ghost var stack1 := stack;
        ok := Turn(index);
        if ok {
          TookAfter(s, g, stack0, stack1, stack, key);
          return;
        }
        if |stack| == 0 {
          atRightEOF := true;
          return;
        }
      }
      ok := false;
    }
  }

  /** No label is so long that its slots could fill the cursor stack. */
  ghost predicate Shallow(g: Labels) {
    forall l | l in g.path :: |g.path[l]| < MAX_CURSOR - 1
  }

  lemma {:induction false} NeverFull(s: Art, g: Labels, stack: seq<Frame>)
    requires Shallow(g) && StackOk(s, g, stack)
    ensures |stack| < MAX_CURSOR
  {
    if stack != [] { StackDepth(s, g, stack); }
  }

  /** The keys listed from the root, as the cursor hands them out. */
  ghost predicate KeysOf(g: Labels, list: seq<Loc>, keys: seq<seq<Byte>>) {
    |keys| == |list| && forall i | 0 <= i < |list| :: list[i] in g.path && keys[i] == KeyBytes(g.path[list[i]])
  }

  lemma {:induction false} OneKeyMore(s: Art, g: Labels, all: seq<Loc>, n: nat, keys: seq<seq<Byte>>,
                                      stack: seq<Frame>, stack': seq<Frame>, key: seq<Byte>)
    requires Valid(s, g) && StackOk(s, g, stack) && Took(s, g, stack, stack', key) && n <= |all|
    requires Remaining(s, g, stack) == all[n..] && KeysOf(g, all[..n], keys)
    ensures n < |all| && Remaining(s, g, stack') == all[n + 1..] && KeysOf(g, all[..n + 1], keys + [key])
  {
    hide Good, StackOk, Valid, Remaining;
    assert all[n..][0] == all[n] && all[n..][1..] == all[n + 1..];
  }

  /** All keys of the tree, by calling NextKey until it fails; fewer only when the cursor stack is full. */
  method AllKeys(index: ArtIndex) returns (keys: seq<seq<Byte>>, whole: bool)
    requires index.Ok()
    ensures Root in index.g.path && |keys| <= |Rest(index.S(), index.g, Root, -1)|
    ensures KeysOf(index.g, Rest(index.S(), index.g, Root, -1)[..|keys|], keys)
    ensures whole ==> KeysOf(index.g, Rest(index.S(), index.g, Root, -1), keys)
    ensures Shallow(index.g) ==> whole
  {
    ghost var s, g := index.S(), index.g;
    var cursor := new Cursor(index);
    ghost var all := Rest(s, g, Root, -1);
    keys := [];
    assert all[0..] == all && all[..0] == [];
    hide Valid, StackOk, KeyOk, Remaining, Took, Shallow, KeysOf, Rest;
    assert KeysOf(g, [], []) by { NoKeys(g); }
    var more := true;
    while more
      invariant index.Ok() && index.S() == s && index.g == g && cursor.Ok(s, g) && |keys| <= |all|
      invariant more || |cursor.stack| < MAX_CURSOR ==> cursor.ToCome(s, g) == all[|keys|..]
      invariant KeysOf(g, all[..|keys|], keys) && (more || |cursor.stack| >= MAX_CURSOR || |keys| == |all|)
      decreases more, |all| - |keys|
    {
      ghost var stack := cursor.stack;
      more := cursor.NextKey(index);
      if more {
        OneKeyMore(s, g, all, |keys|, keys, stack, cursor.stack, cursor.key);
        keys := keys + [cursor.key];
      } else if |cursor.stack| < MAX_CURSOR {
        assert all[|keys|..] == [];
      }
    }
    whole := |cursor.stack| < MAX_CURSOR;
    if Shallow(g) { NeverFull(s, g, cursor.stack); }
    if whole { assert all[..|keys|] == all; }
  }

  lemma {:induction false} NoKeys(g: Labels)
    ensures KeysOf(g, [], [])
  {
  }
}
