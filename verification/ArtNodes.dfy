/**
 The nodes of the adaptive radix tree: spans of key bytes, radix nodes of four sizes and end
 nodes, with what a node maps a key byte to and how a radix node takes one more byte.
 */
module ArtNodes {

  type Byte = b: int | 0 <= b < 256

  /** A step on the way down: a key byte, the next field behind an end node, or past the end node. */
  datatype Sym = B(b: Byte) | Next | Pass

  type Path = seq<Sym>

  /** A tree slot: its type tells what `addr` refers to. Span types carry a length code. */
  datatype Slot =
    | Unused
    | KeyEnd
    | Ref4(addr: nat)
    | Ref14(addr: nat)
    | Ref64(addr: nat)
    | Ref256(addr: nat)
    | RefFld(addr: nat)
    | RefSfx(addr: nat)
    | RefSpan(code: nat, nbyte: nat, addr: nat)

  predicate IsRef(s: Slot) { !s.Unused? && !s.KeyEnd? }

  const NONE := 0xff // unused entry of the key byte array of a 64-slot node

  datatype Node =
    | N4(alloc: seq<bool>, keys: seq<Byte>, radix: seq<Slot>)
    | N14(alloc: seq<bool>, keys: seq<Byte>, radix: seq<Slot>)
    | N64(alloc: seq<bool>, keys: seq<Byte>, radix: seq<Slot>)
    | N256(alloc: seq<bool>, radix: seq<Slot>)
    | Span(bytes: seq<Byte>, next: Slot)
    | End(next: Slot, pass: Slot)

  predicate IsRadix(n: Node) { n.N4? || n.N14? || n.N64? || n.N256? }

  // ---------- the length of a span, as its slot encodes it ----------

  /** allocSpanNode: the span type beyond SpanNode for `len` bytes. */
  function SpanCode(len: nat): nat {
    if len <= 8 then 0
    else if len < 256 then (len - 8 + 15) / 16
    else 16 + (len - 8 + 255) / 256
  }

  /** SPANLEN: the part of the length that the type encodes. */
  function SpanLen(code: nat): nat {
    if code == 0 || code < 16 then 0 else (code - 16 + 1) * 256
  }

  /** `nbyte` has 8 bits. */
  function NByte(len: nat): nat
    requires len > 0
  {
    (len - 1) % 256
  }

  const MAX_SPAN := 248 // longer spans are read back with another length

  /** The length find and cursor read back from a slot. */
  function DecodedLen(code: nat, nbyte: nat): nat { SpanLen(code) + nbyte + 1 }

  /** A span's length survives its encoding exactly up to 248 bytes. */
  lemma {:induction false} SpanLengthExactly(len: nat)
    requires len > 0
    ensures DecodedLen(SpanCode(len), NByte(len)) == len <==> len <= MAX_SPAN
  {
    if len >= 256 {
      assert (len - 8 + 255) / 256 >= (len - 1) / 256;
      assert len - 1 == 256 * ((len - 1) / 256) + (len - 1) % 256;
    }
  }

  function SpanRef(len: nat, addr: nat): Slot
    requires len > 0
  {
    RefSpan(SpanCode(len), NByte(len), addr)
  }

  // ---------- children ----------

  /** The slots of a node that hold something. */
  predicate HasChild(n: Node, i: nat) {
    match n
    case Span(_, _) => i == 0
    case End(_, _) => i < 2
    case _ => i < |n.alloc| && n.alloc[i]
  }

  function SlotAt(n: Node, i: nat): Slot {
    match n
    case Span(_, next) => next
    case End(next, pass) => if i == 0 then next else pass
    case _ => if i < |n.radix| then n.radix[i] else Unused
  }

  function WithSlot(n: Node, i: nat, s: Slot): Node {
    match n
    case Span(bytes, _) => Span(bytes, s)
    case End(next, pass) => if i == 0 then End(s, pass) else End(next, s)
    case N4(alloc, keys, radix) => if i < |radix| then N4(alloc, keys, radix[i := s]) else n
    case N14(alloc, keys, radix) => if i < |radix| then N14(alloc, keys, radix[i := s]) else n
    case N64(alloc, keys, radix) => if i < |radix| then N64(alloc, keys, radix[i := s]) else n
    case N256(alloc, radix) => if i < |radix| then N256(alloc, radix[i := s]) else n
  }

  /** The key byte that leads to slot `i` of a radix node. */
  ghost predicate ByteOf(n: Node, i: nat, b: Byte) {
    match n
    case N4(_, keys, _) => i < |keys| && keys[i] == b
    case N14(_, keys, _) => i < |keys| && keys[i] == b
    case N64(_, keys, _) => b < |keys| && keys[b] == i && i != NONE
    case N256(_, _) => i == b
    case _ => false
  }

  /** In every node the slots in use and the key bytes form a one-to-one map. */
  ghost predicate NodeOk(n: Node) {
    match n
    case N4(alloc, keys, radix) => |alloc| == |keys| == |radix| == 4 && KeysDistinct(alloc, keys)
    case N14(alloc, keys, radix) => |alloc| == |keys| == |radix| == 14 && KeysDistinct(alloc, keys)
    case N64(alloc, keys, radix) =>
      && |alloc| == |radix| == 64 && |keys| == 256
      && (forall b | 0 <= b < 256 :: keys[b] != NONE ==> keys[b] < 64 && alloc[keys[b]])
      && (forall b, c | 0 <= b < c < 256 :: keys[b] == keys[c] ==> keys[b] == NONE)
      && (forall i | 0 <= i < 64 :: alloc[i] ==> exists b: Byte :: keys[b] == i)
    case N256(alloc, radix) => |alloc| == |radix| == 256
    case Span(bytes, _) => 0 < |bytes| <= 248
    case End(_, _) => true
  }

  ghost predicate KeysDistinct(alloc: seq<bool>, keys: seq<Byte>)
    requires |alloc| == |keys|
  {
    forall i, j | 0 <= i < j < |keys| && alloc[i] && alloc[j] :: keys[i] != keys[j]
  }

  ghost predicate EdgeIs(n: Node, i: nat, e: Path) {
    match n
    case Span(bytes, _) => e == Bytes(bytes)
    case End(_, _) => e == if i == 0 then [Next] else [Pass]
    case _ => |e| == 1 && e[0].B? && ByteOf(n, i, e[0].b)
  }

  function Bytes(s: seq<Byte>): (p: Path)
    ensures |p| == |s| && forall i | 0 <= i < |s| :: p[i] == B(s[i])
  {
    seq(|s|, i requires 0 <= i < |s| => B(s[i]))
  }

  lemma {:induction false} EdgeExists(n: Node, i: nat) returns (e: Path)
    requires NodeOk(n) && HasChild(n, i)
    ensures EdgeIs(n, i, e)
  {
    match n
    case N4(_, keys, _) => e := [B(keys[i])];
    case N14(_, keys, _) => e := [B(keys[i])];
    case N64(_, keys, _) =>
      var b: Byte :| keys[b] == i;
      e := [B(b)];
    case N256(_, _) => e := [B(i)];
    case Span(bytes, _) => e := Bytes(bytes);
    case End(_, _) => e := if i == 0 then [Next] else [Pass];
  }

  /** An edge is never empty, a slot has one edge, and different slots part at their first symbol. */
  lemma {:induction false} EdgesPart(n: Node, i: nat, j: nat, e: Path, f: Path)
    requires NodeOk(n) && HasChild(n, i) && HasChild(n, j) && EdgeIs(n, i, e) && EdgeIs(n, j, f)
    ensures |e| > 0 && |f| > 0
    ensures i == j ==> e == f
    ensures i != j ==> e[0] != f[0]
  {
    match n
    case N4(_, _, _) =>
    case N14(_, _, _) =>
    case N64(_, _, _) =>
    case N256(_, _) =>
    case Span(_, _) =>
    case End(_, _) =>
  }

  // ---------- finding a key byte ----------

  /** The scan of a 4 or 14 slot node for a key byte; the number of slots means not found. */
  method ScanKeys(alloc: seq<bool>, keys: seq<Byte>, b: Byte) returns (idx: nat)
    requires |alloc| == |keys|
    ensures idx <= |keys|
    ensures idx < |keys| ==> alloc[idx] && keys[idx] == b
    ensures idx == |keys| ==> forall i | 0 <= i < |keys| && alloc[i] :: keys[i] != b
  {
    idx := 0;
    while idx < |keys|
      invariant idx <= |keys|
      invariant forall i | 0 <= i < idx && alloc[i] :: keys[i] != b
    {
      if alloc[idx] && keys[idx] == b {
        return;
      }
      idx := idx + 1;
    }
  }

  ghost predicate LacksByte(n: Node, b: Byte) {
    forall i: nat | HasChild(n, i) :: !ByteOf(n, i, b)
  }

  method FindByte(n: Node, b: Byte) returns (idx: nat)
    requires IsRadix(n) && NodeOk(n)
    ensures idx <= |n.radix|
    ensures idx < |n.radix| ==> HasChild(n, idx) && ByteOf(n, idx, b)
    ensures idx == |n.radix| ==> LacksByte(n, b)
  {
    match n
    case N4(alloc, keys, _) => idx := ScanKeys(alloc, keys, b);
    case N14(alloc, keys, _) => idx := ScanKeys(alloc, keys, b);
    case N64(alloc, keys, radix) =>
      var k := keys[b];
      idx := if k < NONE && alloc[k] then k else |radix|;
    case N256(alloc, radix) =>
      idx := if alloc[b] then b else |radix|;
  }

  /** Lowest clear bit of an allocation map. */
  method LowestClear(alloc: seq<bool>) returns (idx: nat)
    ensures idx <= |alloc| && (forall i | 0 <= i < idx :: alloc[i])
    ensures idx < |alloc| ==> !alloc[idx]
  {
    idx := 0;
    while idx < |alloc| && alloc[idx]
      invariant idx <= |alloc| && forall i | 0 <= i < idx :: alloc[i]
    {
      idx := idx + 1;
    }
  }

  // ---------- one more byte: in place, or by promotion ----------

  /** `m` maps everything `n` maps, through `to` and back through `fro`, and byte `b` to its slot `at`. */
  ghost predicate Extends(n: Node, m: Node, b: Byte, at: nat, to: seq<nat>, fro: seq<nat>)
    requires IsRadix(n) && IsRadix(m)
  {
    && NodeOk(m) && HasChild(m, at) && ByteOf(m, at, b) && SlotAt(m, at) == Unused
    && |to| == |n.alloc| && |fro| == |m.alloc|
    && (forall i: nat | HasChild(n, i) ::
          to[i] != at && HasChild(m, to[i]) && SlotAt(m, to[i]) == SlotAt(n, i))
    && (forall i: nat, c: Byte | HasChild(n, i) && ByteOf(n, i, c) :: ByteOf(m, to[i], c))
    && (forall j: nat | HasChild(m, j) && j != at :: HasChild(n, fro[j]) && to[fro[j]] == j)
  }

  function Identity(n: nat): (to: seq<nat>)
    ensures |to| == n && forall i | 0 <= i < n :: to[i] == i
  {
    seq(n, i requires 0 <= i < n => i)
  }

  predicate Full(n: Node)
    requires IsRadix(n)
  {
    forall i | 0 <= i < |n.alloc| :: n.alloc[i]
  }

  predicate SameKind(n: Node, m: Node) {
    (n.N4? && m.N4?) || (n.N14? && m.N14?) || (n.N64? && m.N64?) || (n.N256? && m.N256?)
  }

  /** Adds a key byte to a node with a clear slot. */
  method AddInPlace(n: Node, b: Byte) returns (m: Node, at: nat)
    requires IsRadix(n) && NodeOk(n) && LacksByte(n, b) && (n.N256? || !Full(n))
    ensures SameKind(n, m) && Extends(n, m, b, at, Identity(|n.alloc|), Identity(|n.alloc|))
  {
    at := b;
    if !n.N256? {
      at := LowestClear(n.alloc);
    }
    match n
    case N4(alloc, keys, radix) =>
      m := N4(alloc[at := true], keys[at := b], radix[at := Unused]);
      AddToSmall(n, m, b, at);
    case N14(alloc, keys, radix) =>
      m := N14(alloc[at := true], keys[at := b], radix[at := Unused]);
      AddToSmall(n, m, b, at);
    case N64(alloc, keys, radix) =>
      m := N64(alloc[at := true], keys[b := at], radix[at := Unused]);
      AddTo64(n, m, b, at);
    case N256(alloc, radix) =>
      m := N256(alloc[b := true], radix[b := Unused]);
      AddTo256(n, m, b);
  }

  lemma {:induction false} AddToSmall(n: Node, m: Node, b: Byte, at: nat)
    requires NodeOk(n) && LacksByte(n, b) && (n.N4? || n.N14?) && SameKind(n, m) && at < |n.alloc| && !n.alloc[at]
    requires m.alloc == n.alloc[at := true] && m.keys == n.keys[at := b] && m.radix == n.radix[at := Unused]
    ensures Extends(n, m, b, at, Identity(|n.alloc|), Identity(|n.alloc|))
  {
    assert forall i: nat | i < |n.keys| && n.alloc[i] :: n.keys[i] != b by {
      forall i: nat | i < |n.keys| && n.alloc[i] ensures n.keys[i] != b { assert HasChild(n, i); }
    }
  }

  lemma {:induction false} AddTo256(n: Node, m: Node, b: Byte)
    requires n.N256? && NodeOk(n) && LacksByte(n, b) && m == N256(n.alloc[b := true], n.radix[b := Unused])
    ensures Extends(n, m, b, b, Identity(256), Identity(256))
  {
    assert ByteOf(n, b, b);
  }

  lemma {:induction false} FreeByteOf64(n: Node, b: Byte)
    requires n.N64? && NodeOk(n) && LacksByte(n, b)
    ensures n.keys[b] == NONE
  {
    if n.keys[b] != NONE {
      assert HasChild(n, n.keys[b]) && ByteOf(n, n.keys[b], b);
    }
  }

  lemma {:induction false} AddTo64Ok(n: Node, m: Node, b: Byte, at: nat)
    requires n.N64? && NodeOk(n) && at < 64 && !n.alloc[at] && n.keys[b] == NONE
    requires m == N64(n.alloc[at := true], n.keys[b := at], n.radix[at := Unused])
    ensures NodeOk(m)
  {
    forall i | 0 <= i < 64 && m.alloc[i] ensures exists c: Byte :: m.keys[c] == i {
      if i == at {
        assert m.keys[b] == at;
      } else {
        var c: Byte :| n.keys[c] == i;
        assert m.keys[c] == i;
      }
    }
  }

  lemma {:induction false} AddTo64(n: Node, m: Node, b: Byte, at: nat)
    requires n.N64? && NodeOk(n) && at < 64 && !n.alloc[at] && LacksByte(n, b)
    requires m == N64(n.alloc[at := true], n.keys[b := at], n.radix[at := Unused])
    ensures Extends(n, m, b, at, Identity(64), Identity(64))
  {
    FreeByteOf64(n, b);
    AddTo64Ok(n, m, b, at);
  }

  // ---------- promotion of a full node ----------

  /** 4 to 14 slots: the full node is copied slot by slot, then the byte is added. */
  method Promote4(n: Node, b: Byte) returns (m: Node, at: nat)
    requires n.N4? && NodeOk(n) && Full(n) && LacksByte(n, b)
    ensures m.N14? && Extends(n, m, b, at, Identity(4), Identity(14))
  {
    var alloc, radix := seq(14, _ => false), seq(14, _ => Unused);
    var keys: seq<Byte> := seq(14, _ => 0);
    var idx := 0;
    while idx < 4
      invariant idx <= 4 && |alloc| == |keys| == |radix| == 14 && |n.keys| == |n.radix| == 4
      invariant forall i | 0 <= i < idx :: alloc[i] && keys[i] == n.keys[i] && radix[i] == n.radix[i]
      invariant forall i | idx <= i < 14 :: !alloc[i] && radix[i] == Unused
    {
      var out := LowestClear(alloc);
      assert !alloc[idx];
      alloc, keys, radix := alloc[out := true], keys[out := n.keys[idx]], radix[out := n.radix[idx]];
      idx := idx + 1;
    }
    at := LowestClear(alloc);
    assert !alloc[4];
    m := N14(alloc[at := true], keys[at := b], radix);
    Promoted4(n, m, b);
  }

  lemma {:induction false} Promoted4(n: Node, m: Node, b: Byte)
    requires n.N4? && NodeOk(n) && Full(n) && LacksByte(n, b)
    requires m.N14? && |m.alloc| == |m.keys| == |m.radix| == 14
    requires forall i | 0 <= i < 4 :: m.alloc[i] && m.keys[i] == n.keys[i] && m.radix[i] == n.radix[i]
    requires m.alloc[4] && m.keys[4] == b && m.radix[4] == Unused && forall i | 5 <= i < 14 :: !m.alloc[i]
    ensures Extends(n, m, b, 4, Identity(4), Identity(14))
  {
    forall i: nat | i < 4 ensures n.keys[i] != b { assert HasChild(n, i); }
  }

  /** 14 to 64 slots: the key bytes move into the byte array. */
  method Promote14(n: Node, b: Byte) returns (m: Node, at: nat)
    requires n.N14? && NodeOk(n) && Full(n) && LacksByte(n, b)
    ensures m.N64? && Extends(n, m, b, at, Identity(14), Identity(64))
  {
    var alloc, radix := seq(64, _ => false), seq(64, _ => Unused);
    var keys: seq<Byte> := seq(256, _ => NONE);
    var idx := 0;
    while idx < 14
      invariant idx <= 14 && |alloc| == |radix| == 64 && |keys| == 256 && |n.keys| == |n.radix| == |n.alloc| == 14
      invariant forall i | 0 <= i < idx :: alloc[i] && keys[n.keys[i]] == i && radix[i] == n.radix[i]
      invariant forall i | idx <= i < 64 :: !alloc[i] && radix[i] == Unused
      invariant forall c: Byte :: keys[c] == NONE || (keys[c] < idx && n.keys[keys[c]] == c)
    {
      var out := LowestClear(alloc);
      assert !alloc[idx];
      alloc, radix := alloc[out := true], radix[out := n.radix[idx]];
      keys := keys[n.keys[idx] := out];
      idx := idx + 1;
    }
    at := LowestClear(alloc);
    assert !alloc[14];
    Promoted14(n, alloc, keys, radix, b, at);
    m := N64(alloc[at := true], keys[b := at], radix);
  }

  /** The copied node, before the new byte is added. */
  lemma {:induction false} Copied14(n: Node, alloc: seq<bool>, keys: seq<Byte>, radix: seq<Slot>, b: Byte)
    requires n.N14? && NodeOk(n) && Full(n) && LacksByte(n, b)
    requires |alloc| == |radix| == 64 && |keys| == 256
    requires forall i | 0 <= i < 14 :: alloc[i] && keys[n.keys[i]] == i && radix[i] == n.radix[i]
    requires forall i | 14 <= i < 64 :: !alloc[i] && radix[i] == Unused
    requires forall c: Byte :: keys[c] == NONE || (keys[c] < 14 && n.keys[keys[c]] == c)
    ensures NodeOk(N64(alloc, keys, radix)) && keys[b] == NONE
  {
    assert keys[b] == NONE by {
      if keys[b] != NONE { assert HasChild(n, keys[b]) && ByteOf(n, keys[b], b); }
    }
    forall i | 0 <= i < 64 && alloc[i] ensures exists c: Byte :: keys[c] == i {
      assert keys[n.keys[i]] == i;
    }
  }

  lemma {:induction false} Promoted14(
      n: Node, alloc: seq<bool>, keys: seq<Byte>, radix: seq<Slot>, b: Byte, at: nat)
    requires n.N14? && NodeOk(n) && Full(n) && LacksByte(n, b) && at == 14
    requires |alloc| == |radix| == 64 && |keys| == 256
    requires forall i | 0 <= i < 14 :: alloc[i] && keys[n.keys[i]] == i && radix[i] == n.radix[i]
    requires forall i | 14 <= i < 64 :: !alloc[i] && radix[i] == Unused
    requires forall c: Byte :: keys[c] == NONE || (keys[c] < 14 && n.keys[keys[c]] == c)
    ensures Extends(n, N64(alloc[at := true], keys[b := at], radix), b, at, Identity(14), Identity(64))
  {
    var m0, m := N64(alloc, keys, radix), N64(alloc[at := true], keys[b := at], radix);
    Copied14(n, alloc, keys, radix, b);
    assert radix == radix[at := Unused];
    AddTo64Ok(m0, m, b, at);
  }

  /** 64 to 256 slots: every key byte gets its own slot. */
  method Promote64(n: Node, b: Byte) returns (m: Node, ghost to: seq<nat>, ghost fro: seq<nat>)
    requires n.N64? && NodeOk(n) && Full(n) && LacksByte(n, b)
    ensures m.N256? && Extends(n, m, b, b, to, fro)
  {
    var alloc, radix := seq(256, _ => false), seq(256, _ => Unused);
    var idx := 0;
    while idx < 256
      invariant idx <= 256 && |alloc| == |radix| == 256
      invariant forall c | 0 <= c < idx :: alloc[c] == (n.keys[c] != NONE)
      invariant forall c | 0 <= c < idx && alloc[c] :: radix[c] == n.radix[n.keys[c]]
      invariant forall c | idx <= c < 256 :: !alloc[c] && radix[c] == Unused
      invariant forall c | 0 <= c < 256 && !alloc[c] :: radix[c] == Unused
    {
      if n.keys[idx] < NONE && n.alloc[n.keys[idx]] {
        alloc, radix := alloc[idx := true], radix[idx := n.radix[n.keys[idx]]];
      }
      idx := idx + 1;
    }
    m := N256(alloc[b := true], radix);
    to, fro := Promoted64(n, alloc, radix, b);
  }

  ghost function ByteFor64(n: Node, i: nat): (b: Byte)
    requires n.N64? && NodeOk(n) && i < 64 && n.alloc[i]
    ensures n.keys[b] == i
  {
    var c: Byte :| n.keys[c] == i;
    c
  }

  lemma {:induction false} Promoted64(n: Node, alloc: seq<bool>, radix: seq<Slot>, b: Byte)
    returns (to: seq<nat>, fro: seq<nat>)
    requires n.N64? && NodeOk(n) && Full(n) && LacksByte(n, b)
    requires |alloc| == |radix| == 256
    requires forall c | 0 <= c < 256 :: alloc[c] == (n.keys[c] != NONE)
    requires forall c | 0 <= c < 256 :: radix[c] == if alloc[c] then n.radix[n.keys[c]] else Unused
    ensures Extends(n, N256(alloc[b := true], radix), b, b, to, fro)
  {
    FreeByteOf64(n, b);
    assert forall i | 0 <= i < 64 :: n.alloc[i];
    to := seq(64, i requires 0 <= i < 64 => ByteFor64(n, i));
    fro := seq(256, c requires 0 <= c < 256 => n.keys[c]);
    forall i: nat | HasChild(n, i) ensures to[i] == ByteFor64(n, i) && n.keys[to[i]] == i {}
  }
}
