/** The encoding of a tree, and what the reader makes of it. */
module BsonRoundTrip {
  import opened Probing
  import opened MarshalImage
  import opened PairVectors
  import opened Decimal
  import opened Sequences
  import opened BsonReader

  // ---------- the encoding, after the BSON specification 1.1 ----------

  /** Little-endian bytes of a number. */
  function Bytes(n: nat, k: nat): (r: Name)
    ensures |r| == k
  {
    if k == 0 then [] else [n % 256] + Bytes(n / 256, k - 1)
  }

  function Pow256(k: nat): (r: nat)
    ensures r > 0
  {
    if k == 0 then 1 else 256 * Pow256(k - 1)
  }

  lemma {:induction false} NumberOfBytes(n: nat, k: nat)
    requires n < Pow256(k)
    ensures Number(Bytes(n, k)) == n
  {
    if k > 0 {
      assert n / 256 < Pow256(k - 1);
      NumberOfBytes(n / 256, k - 1);
      assert Bytes(n, k)[1..] == Bytes(n / 256, k - 1);
    }
  }

  lemma {:induction false} Words()
    ensures Pow256(4) == WORD32 && Pow256(8) == WORD64
  {
    assert Pow256(2) == 65536;
    assert Pow256(4) == WORD32;
    assert Pow256(6) == 65536 * WORD32;
  }

  /** The elements of a document; those of an array are named by their index. */
  function Members(v: Value): (r: seq<Pair>)
    ensures forall i | 0 <= i < |r| :: r[i].value < v
  {
    match v
    case Obj(pairs) => pairs
    case Arr(elems) => seq(|elems|, i requires 0 <= i < |elems| => Pair(Digits(i), elems[i]))
    case _ => []
  }

  /** How a tree is encoded: the code of every leaf, and the subtype of a binary. */
  datatype Plan = Plan(code: Byte, sub: Byte, kids: seq<Plan>)

  function Kid(h: Plan, i: nat): Plan { if i < |h.kids| then h.kids[i] else Plan(CODE_STRING, 0, []) }

  function Code(v: Value, h: Plan): Byte {
    match v
    case Obj(_) => CODE_DOCUMENT
    case Arr(_) => CODE_ARRAY
    case _ => h.code
  }

  function LeafBytes(v: Value, h: Plan): Name {
    match v
    case Str(_, bytes) =>
      if h.code == CODE_BINARY then Bytes(|bytes|, 4) + ([h.sub] + bytes)
      else if h.code == CODE_OBJECT_ID then bytes
      else Bytes(|bytes| + 1, 4) + (bytes + [0])
    case Imm(tag, bits) =>
      if h.code == CODE_BOOL then [if bits != 0 then 1 else 0]
      else if h.code == CODE_INT32 then Bytes(bits % WORD32, 4)
      else Bytes(bits % WORD64, 8)
    case _ => []
  }

  function Payload(v: Value, h: Plan): Name
    decreases v, |Members(v)| + 1
  {
    if v.Obj? || v.Arr? then Bytes(4 + |Body(v, h, 0)| + 1, 4) + (Body(v, h, 0) + [0]) else LeafBytes(v, h)
  }

  /** The elements from number `i` on. */
  function Body(v: Value, h: Plan, i: nat): Name
    requires i <= |Members(v)|
    decreases v, |Members(v)| - i
  {
    if i == |Members(v)| then []
    else Element(Members(v)[i].name, Members(v)[i].value, Kid(h, i)) + Body(v, h, i + 1)
  }

  function Element(name: Name, v: Value, h: Plan): Name
    decreases v, |Members(v)| + 2
  {
    [Code(v, h)] + (name + ([0] + Payload(v, h)))
  }

  // ---------- the trees ----------

  /** Doubles (by their bits), booleans, dates and integers, by the codes the reader knows for them. */
  predicate PlainLeaf(tag: nat, bits: int, code: Byte) {
    || (tag == VT_DBL && 0 <= bits < WORD64 && code == CODE_DOUBLE)
    || (tag == VT_BOOL && 0 <= bits <= 1 && code == CODE_BOOL)
    || (tag == VT_DATE && -HALF <= bits < HALF && code == CODE_DATE)
    || (tag == VT_INT && -HALF <= bits < HALF && (code == CODE_INT64 || code == CODE_TIMESTAMP))
    || (tag == VT_INT && 0 <= bits < WORD32 && code == CODE_INT32)
  }

  /** Text, twelve bytes of an object id, or the bytes of a binary that is not empty. */
  predicate PlainText(bytes: Name, code: Byte) {
    code == CODE_STRING || (code == CODE_BINARY && bytes != []) || (code == CODE_OBJECT_ID && |bytes| == 12)
  }

  ghost predicate NoZero(s: Name) { forall i | 0 <= i < |s| :: s[i] != 0 }

  ghost predicate Plain(v: Value, h: Plan)
    decreases v
  {
    match v
    case Imm(tag, bits) => PlainLeaf(tag, bits, h.code)
    case Str(kind, bytes) => kind == KString && PlainText(bytes, h.code)
    case Arr(elems) => forall i | 0 <= i < |elems| :: Plain(elems[i], Kid(h, i))
    case Obj(pairs) =>
      && DistinctNames(pairs)
      && (forall i | 0 <= i < |pairs| :: NoZero(pairs[i].name))
      && forall i | 0 <= i < |pairs| :: Plain(pairs[i].value, Kid(h, i))
  }

  /** Every name fits the reader's buffer and, with `v` inside `depth` documents, no level is missing. */
  ghost predicate Fits(v: Value, depth: nat)
    decreases v
  {
    v.Arr? || v.Obj? ==>
      && depth < MAX_DEPTH
      && forall i | 0 <= i < |Members(v)| :: |Members(v)[i].name| <= MAX_NAME && Fits(Members(v)[i].value, depth + 1)
  }

  lemma {:induction false} MembersPlain(v: Value, h: Plan, i: nat)
    requires Plain(v, h) && i < |Members(v)|
    ensures NoZero(Members(v)[i].name) && Plain(Members(v)[i].value, Kid(h, i))
  {
  }

  /** A container after its first `i` members. */
  function Partial(v: Value, i: nat): Value
    requires (v.Obj? || v.Arr?) && i <= |Members(v)|
  {
    match v
    case Obj(pairs) => Obj(pairs[..i])
    case Arr(elems) => Arr(elems[..i])
  }

  lemma {:induction false} NextMember(v: Value, h: Plan, i: nat)
    requires (v.Obj? || v.Arr?) && Plain(v, h) && i < |Members(v)|
    ensures Stored(Partial(v, i), Members(v)[i].name, Members(v)[i].value) == Partial(v, i + 1)
  {
    match v
    case Obj(pairs) =>
      PutFresh(pairs[..i], pairs[i].name, pairs[i].value);
      assert pairs[..i] + [pairs[i]] == pairs[..i + 1];
    case Arr(elems) => assert elems[..i] + [elems[i]] == elems[..i + 1];
  }

  lemma {:induction false} AllMembers(v: Value)
    requires v.Obj? || v.Arr?
    ensures Partial(v, |Members(v)|) == v && Partial(v, 0) == if v.Obj? then Obj([]) else Arr([])
  {
    match v
    case Obj(pairs) => assert pairs[..|pairs|] == pairs;
    case Arr(elems) => assert elems[..|elems|] == elems;
  }

  // ---------- reading the pieces ----------

  /** The name loop over a name: a name over 4096 bytes is refused, with bytes enough left. */
  lemma {:induction false} ReadsName(name: Name, left: int, acc: Name, r: Name)
    requires NoZero(name) && |acc| <= MAX_NAME && left >= |name|
    ensures ReadName(name + ([0] + r), left, acc)
         == if |acc| + |name| <= MAX_NAME then NameOk(acc + name, left - |name| - 1, r, false) else NameBad
    decreases |name|
  {
    if |name| == 0 {
      Empty([0] + r);
      assert ([0] + r)[1..] == r && acc + name == acc;
    } else {
      First(name, [0] + r);
      if |acc| < MAX_NAME {
        ReadsName(name[1..], left - 1, acc + [name[0]], r);
        assert acc + [name[0]] + name[1..] == acc + name;
      }
    }
  }

  lemma {:induction false} BytesThen(n: nat, k: nat, r: Name)
    requires n < Pow256(k)
    ensures var s := Bytes(n, k) + r; s[..k] == Bytes(n, k) && s[k..] == r && Number(s[..k]) == n
  {
    var s := Bytes(n, k) + r;
    NumberOfBytes(n, k);
    assert s[..k] == Bytes(n, k);
  }

  /** A leaf reads back. */
  lemma {:induction false} ReadsLeaf(v: Value, h: Plan, r: Name)
    requires Plain(v, h) && (v.Imm? || v.Str?) && |LeafBytes(v, h)| < 0x8000_0000
    ensures !IsNested(Code(v, h))
    ensures ReadPayload(Code(v, h), LeafBytes(v, h) + r) == Paid(v, |LeafBytes(v, h)|) && (LeafBytes(v, h) + r)[|LeafBytes(v, h)|..] == r
  {
    hide Bytes, Number, Wrap64;
    Words();
    var s := LeafBytes(v, h) + r;
    match v
    case Str(_, bytes) =>
      if h.code == CODE_BINARY {
        assert s == Bytes(|bytes|, 4) + ([h.sub] + bytes + r);
        BytesThen(|bytes|, 4, [h.sub] + bytes + r);
        assert s[5..5 + |bytes|] == bytes;
      } else if h.code == CODE_STRING {
        var n := |bytes| + 1;
        assert s == Bytes(n, 4) + (bytes + [0] + r);
        BytesThen(n, 4, bytes + [0] + r);
        assert s[4..4 + n - 1] == bytes;
      }
    case Imm(tag, bits) =>
      if h.code == CODE_INT32 {
        BytesThen(bits % WORD32, 4, r);
      } else if tag != VT_BOOL {
        BytesThen(bits % WORD64, 8, r);
        WrapsBack(bits);
      }
  }

  /** A 32-bit integer comes back exactly if it is not negative: the reader takes it as unsigned. */
  lemma {:induction false} Int32Exactly(bits: int, r: Name)
    requires -0x8000_0000 <= bits < 0x8000_0000
    ensures ReadPayload(CODE_INT32, Bytes(bits % WORD32, 4) + r)
         == Paid(Imm(VT_INT, if bits < 0 then bits + WORD32 else bits), 4)
  {
    hide Bytes, Number;
    Words();
    BytesThen(bits % WORD32, 4, r);
  }

  /** A binary of `bytes` is read exactly if it is not empty: a read of nothing counts as the end of the file. */
  lemma {:induction false} BinaryExactly(bytes: Name, sub: Byte, r: Name)
    requires |bytes| < WORD32
    ensures ReadPayload(CODE_BINARY, Bytes(|bytes|, 4) + ([sub] + bytes) + r)
         == if bytes == [] then Short else Paid(Str(KString, bytes), |bytes| + 5)
  {
    hide Bytes, Number;
    Words();
    var s := Bytes(|bytes|, 4) + ([sub] + bytes) + r;
    assert s == Bytes(|bytes|, 4) + ([sub] + bytes + r);
    BytesThen(|bytes|, 4, [sub] + bytes + r);
    assert s[5..5 + |bytes|] == bytes;
  }

  lemma {:induction false} WrapsBack(bits: int)
    ensures 0 <= bits < WORD64 ==> bits % WORD64 == bits
    ensures -HALF <= bits < HALF ==> Wrap64(bits % WORD64) == bits
  {
    if -HALF <= bits < 0 {
      assert bits % WORD64 == bits + WORD64;
      assert (bits + WORD64 + HALF) % WORD64 == bits + HALF;
    }
  }

  // ---------- reading elements ----------

  predicate Failed(t: Turn) { t.BadFormat? || t.Fault? }

  ghost predicate FitsFrom(v: Value, i: nat, depth: nat) {
    forall j | i <= j < |Members(v)| :: |Members(v)[j].name| <= MAX_NAME && Fits(Members(v)[j].value, depth)
  }

  /** The outcome after a container has ended: its value is the result or goes into the one around it. */
  function Closed(levels: seq<Level>, v: Value, amt: nat, r: Name): Turn
    requires |levels| > 0
  {
    var d := |levels| - 1;
    if d == 0 then Done(v, amt, r) else Rest(levels[..d - 1] + [Attach(levels[d - 1], v)], amt, r)
  }

  /** The level after an element of `size` bytes with value `v`. */
  function After(level: Level, name: Name, v: Value, size: nat): Level {
    Level(level.left - size, [], Stored(level.val, name, v))
  }

  lemma {:induction false} ElementSplits(name: Name, v: Value, h: Plan, r: Name)
    ensures var s := Element(name, v, h) + r;
            s[0] == Code(v, h) && s[1..] == name + ([0] + (Payload(v, h) + r)) && |Element(name, v, h)| == |name| + 2 + |Payload(v, h)|
  {
    hide Payload;
    assert name + ([0] + Payload(v, h)) + r == name + ([0] + (Payload(v, h) + r));
  }

  lemma {:induction false} PlainCode(v: Value, h: Plan)
    requires Plain(v, h)
    ensures Code(v, h) != 0
  {
  }

  /** The turn of an element gets as far as its value. */
  lemma {:induction false} ReadsHead(levels: seq<Level>, name: Name, v: Value, h: Plan, amt: nat, r: Name)
    requires |levels| > 0 && NoZero(name) && Code(v, h) != 0
    requires levels[|levels| - 1].left >= |Element(name, v, h)|
    ensures var left := levels[|levels| - 1].left - |name| - 2;
            TurnOf(levels, amt, Element(name, v, h) + r)
            == if |name| <= MAX_NAME then ElementTurn(levels, Code(v, h), name, left, amt + |name| + 2, Payload(v, h) + r)
               else BadFormat
  {
    hide Payload, ReadName, ReadPayload, Element, ElementTurn;
    var d := |levels| - 1;
    ElementSplits(name, v, h, r);
    ReadsName(name, levels[d].left - 1, [], Payload(v, h) + r);
    Empty(name);
  }

  /** An element is read up to its end exactly if its names fit the buffer and its levels the stack. */
  lemma {:induction false} ReadsElement(levels: seq<Level>, name: Name, v: Value, h: Plan, amt: nat, r: Name)
    requires 0 < |levels| <= MAX_DEPTH && Plain(v, h) && NoZero(name)
    requires |Element(name, v, h)| <= levels[|levels| - 1].left < 0x8000_0000
    ensures var d, n := |levels| - 1, |Element(name, v, h)|;
            var t := Rest(levels, amt, Element(name, v, h) + r);
            if |name| <= MAX_NAME && Fits(v, |levels|)
            then t == Rest(levels[d := After(levels[d], name, v, n)], amt + n, r)
            else Failed(t)
    decreases v, |Members(v)| + 2
  {
    hide Rest, TurnOf, ElementTurn, Payload, Body, Fits, NoZero, Plain, Element, Stored, LeafBytes;
    TurnOnce(levels, amt, Element(name, v, h) + r);
    PlainCode(v, h);
    ReadsHead(levels, name, v, h, amt, r);
    ElementSplits(name, v, h, r);
    if |name| <= MAX_NAME {
      if v.Obj? || v.Arr? {
        ReadsNested(levels, name, v, h, amt, r);
      } else {
        ReadsValue(levels, name, v, h, amt, r);
      }
    }
  }

  lemma {:induction false} TurnOnce(levels: seq<Level>, amt: nat, s: Name)
    requires |levels| > 0
    ensures var t := TurnOf(levels, amt, s);
            Rest(levels, amt, s) == if t.Go? then Rest(t.levels, t.amt, t.rest) else t
  {
  }

  lemma {:induction false} ReadsValue(levels: seq<Level>, name: Name, v: Value, h: Plan, amt: nat, r: Name)
    requires |levels| > 0 && Plain(v, h) && (v.Imm? || v.Str?)
    requires |name| + 2 + |Payload(v, h)| <= levels[|levels| - 1].left < 0x8000_0000
    ensures var d, n := |levels| - 1, |name| + 2 + |Payload(v, h)|;
            ElementTurn(levels, Code(v, h), name, levels[d].left - |name| - 2, amt + |name| + 2, Payload(v, h) + r)
            == Go(levels[d := After(levels[d], name, v, n)], amt + n, r)
    ensures Fits(v, |levels|)
  {
    hide Rest, TurnOf, Stored, LeafBytes, ReadPayload, Plain;
    assert Payload(v, h) == LeafBytes(v, h);
    ReadsLeaf(v, h, r);
  }

  lemma {:induction false} FitsMembers(v: Value, depth: nat)
    requires v.Obj? || v.Arr?
    ensures Fits(v, depth) <==> depth < MAX_DEPTH && FitsFrom(v, 0, depth + 1)
  {
  }

  lemma {:induction false} ReadsNested(levels: seq<Level>, name: Name, v: Value, h: Plan, amt: nat, r: Name)
    requires 0 < |levels| <= MAX_DEPTH && Plain(v, h) && (v.Obj? || v.Arr?)
    requires |name| + 2 + |Payload(v, h)| <= levels[|levels| - 1].left < 0x8000_0000
    ensures var d, n := |levels| - 1, |name| + 2 + |Payload(v, h)|;
            var t := ElementTurn(levels, Code(v, h), name, levels[d].left - |name| - 2, amt + |name| + 2, Payload(v, h) + r);
            if Fits(v, |levels|)
            then t.Go? && Rest(t.levels, t.amt, t.rest) == Rest(levels[d := After(levels[d], name, v, n)], amt + n, r)
            else Failed(if t.Go? then Rest(t.levels, t.amt, t.rest) else t)
    decreases v, |Members(v)| + 1
  {
    hide Rest, TurnOf, Stored, Body, Fits, FitsFrom, Plain, Bytes, Number, ReadPayload, Partial;
    var d, body := |levels| - 1, Body(v, h, 0);
    var n := 4 + |body| + 1;
    Words();
    BytesThen(n, 4, body + ([0] + r));
    assert Payload(v, h) + r == Bytes(n, 4) + (body + ([0] + r));
    FitsMembers(v, |levels|);
    AllMembers(v);
    if |levels| < MAX_DEPTH {
      var outer := Level(levels[d].left - |name| - 2 - n, name, levels[d].val);
      var inner := Level(|body| + 1, [], Partial(v, 0));
      var deeper := levels[d := outer] + [inner];
      assert deeper[..d] + [Attach(deeper[d], v)] == levels[d := After(levels[d], name, v, |name| + 2 + n)];
      ReadsBody(deeper, v, h, 0, amt + |name| + 2 + 4, r);
    }
  }

  /** The rest of a container, from member `i` to its end. */
  lemma {:induction false} ReadsBody(levels: seq<Level>, v: Value, h: Plan, i: nat, amt: nat, r: Name)
    requires 0 < |levels| <= MAX_DEPTH && Plain(v, h) && (v.Obj? || v.Arr?) && i <= |Members(v)|
    requires |Body(v, h, i)| + 1 < 0x8000_0000
    requires levels[|levels| - 1] == Level(|Body(v, h, i)| + 1, [], Partial(v, i))
    ensures var t := Rest(levels, amt, Body(v, h, i) + ([0] + r));
            if FitsFrom(v, i, |levels|) then t == Closed(levels, v, amt + |Body(v, h, i)| + 1, r) else Failed(t)
    decreases v, |Members(v)| - i
  {
    hide Rest, TurnOf, Stored, Fits, Plain, NoZero, Element, Partial, Members;
    var d := |levels| - 1;
    if i == |Members(v)| {
      AllMembers(v);
      Empty([0] + r);
      ReadsEnd(levels, v, amt, r);
    } else {
      var m := Members(v)[i];
      var rest := Body(v, h, i + 1) + ([0] + r);
      assert Body(v, h, i) + ([0] + r) == Element(m.name, m.value, Kid(h, i)) + rest;
      MembersPlain(v, h, i);
      NextMember(v, h, i);
      ReadsElement(levels, m.name, m.value, Kid(h, i), amt, rest);
      if |m.name| <= MAX_NAME && Fits(m.value, |levels|) {
        var next := levels[d := After(levels[d], m.name, m.value, |Element(m.name, m.value, Kid(h, i))|)];
        ReadsBody(next, v, h, i + 1, amt + |Element(m.name, m.value, Kid(h, i))|, r);
        assert next[..d] == levels[..d];
      }
    }
  }

  lemma {:induction false} ReadsEnd(levels: seq<Level>, v: Value, amt: nat, r: Name)
    requires |levels| > 0 && levels[|levels| - 1] == Level(1, [], v)
    ensures Rest(levels, amt, [0] + r) == Closed(levels, v, amt + 1, r)
  {
    hide Stored, ReadName, ReadPayload;
    assert ([0] + r)[1..] == r;
  }

  /**
   Reading the encoding of a document gives the document back, leaving what follows unread,
   exactly if every name is at most 4096 bytes long and no more than 1024 documents are open.
   */
  lemma {:induction false} RoundTripExactly(v: Value, h: Plan, amt: nat, r: Name)
    requires v.Obj? && Plain(v, h) && |Body(v, h, 0)| + 1 < 0x8000_0000
    ensures var n := |Body(v, h, 0)| + 1;
            Read(Body(v, h, 0) + ([0] + r), n, amt) == Done(v, amt + n, r) <==> Fits(v, 0)
  {
    hide Rest, TurnOf, Stored, Fits, Plain, FitsFrom, Body;
    AllMembers(v);
    FitsMembers(v, 0);
    ReadsBody([Level(|Body(v, h, 0)| + 1, [], Obj([]))], v, h, 0, amt, r);
  }
}
