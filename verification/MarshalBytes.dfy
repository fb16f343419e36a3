/**
 The marshaled document byte by byte: the records as octets of one buffer, and a reader that finds
 counts, slots, hash entries and string bytes by address.
 */
module MarshalBytes {
  import opened Probing
  import opened MarshalImage
  import opened MarshalLayout
  import opened MarshalRegions
  import opened MarshalReading
  import opened MarshalReadBack

  /** A byte of the buffer: a number, or one of the 16 bytes of a value slot. */
  datatype Octet = Octet(b: Byte) | SlotByte(v: MVal, k: nat)

  // ---------- the octets of a record ----------

  /** Byte `j` of a little-endian number. */
  function Digit(n: nat, j: nat): Byte {
    if j == 0 then n % 256 else if j == 1 then n / 256 % 256 else if j == 2 then n / 256 / 256 % 256 else n / 256 / 256 / 256 % 256
  }

  function Number(n: nat, w: nat): (s: seq<Octet>)
    ensures |s| == w
  {
    seq(w, j requires 0 <= j < w => Octet(Digit(n, j)))
  }

  function Chars(bytes: Name): (s: seq<Octet>)
    ensures |s| == |bytes|
  {
    seq(|bytes|, k requires 0 <= k < |bytes| => Octet(bytes[k]))
  }

  function Slots(values: seq<MVal>): (s: seq<Octet>)
    ensures |s| == 16 * |values|
  {
    seq(16 * |values|, k requires 0 <= k < 16 * |values| => SlotByte(values[k / 16], k % 16))
  }

  function PairByte(p: MPair, k: nat): Octet { if k < 16 then SlotByte(p.name, k) else SlotByte(p.value, k - 16) }

  /** A pair is the slot of its name and the slot of its value. */
  function PairSlots(pairs: seq<MPair>): (s: seq<Octet>)
    ensures |s| == 32 * |pairs|
  {
    seq(32 * |pairs|, k requires 0 <= k < 32 * |pairs| =>
      PairByte(pairs[k / 32], k % 32))
  }

  /** The hash table, with entries of one, two or four bytes. */
  function Entries(table: seq<nat>, w: nat): (s: seq<Octet>)
    requires w == 1 || w == 2 || w == 4
    ensures |s| == if w == 1 then |table| else if w == 2 then 2 * |table| else 4 * |table|
  {
    if w == 1 then seq(|table|, k requires 0 <= k < |table| => Octet(Digit(table[k], 0)))
    else if w == 2 then seq(2 * |table|, k requires 0 <= k < 2 * |table| => Octet(Digit(table[k / 2], k % 2)))
    else seq(4 * |table|, k requires 0 <= k < 4 * |table| => Octet(Digit(table[k / 4], k % 4)))
  }

  function Octets(r: Rec): seq<Octet> {
    match r
    case StrRec(len, bytes) => Number(len, 4) + Chars(bytes) + [Octet(0)]
    case ArrRec(cnt, values) => Number(cnt, 4) + Slots(values)
    case ObjRec(cnt, pairs, table) => Number(cnt, 4) + PairSlots(pairs) + Entries(table, HashBytes(|pairs|))
  }

  /** The region that a marshal and calcSize set aside for a record is exactly what the record takes. */
  lemma {:induction false} OctetsFit(r: Rec)
    requires RecOk(r)
    ensures |Octets(r)| == RecBytes(r)
  {
    if r.ObjRec? {
      var n := |r.pairs|;
      var w := HashBytes(n);
      assert |Entries(r.table, w)| == |r.table| * w;
    }
  }

  // ---------- the buffer ----------

  ghost predicate CoveredBy(img: Image, a: nat, o: nat) {
    o in img.recs && o <= a < o + |Octets(img.recs[o])|
  }

  /** The byte at an address; bytes outside of all records are zero. */
  ghost function OctetAt(img: Image, a: nat): Octet {
    if exists o: nat :: CoveredBy(img, a, o) then
      var o: nat :| CoveredBy(img, a, o);
      Octets(img.recs[o])[a - o]
    else Octet(0)
  }

  /** The buffer up to the final offset. */
  ghost function Buffer(img: Image): (buf: seq<Octet>)
    ensures |buf| == img.next
  {
    seq(img.next, a requires 0 <= a < img.next => OctetAt(img, a))
  }

  /** The record stands in the buffer at its offset. */
  ghost predicate Stands(buf: seq<Octet>, o: nat, r: Rec) {
    o + |Octets(r)| <= |buf| && buf[o..o + |Octets(r)|] == Octets(r)
  }

  /** A byte lies in one record at most. */
  lemma {:induction false} CoveredOnce(img: Image, start: nat, a: nat, o: nat, p: nat)
    requires Packed(img, start) && CoveredBy(img, a, o) && CoveredBy(img, a, p)
    ensures o == p
  {
    hide Octets, RecBytes;
    OctetsFit(img.recs[o]);
    OctetsFit(img.recs[p]);
  }

  lemma {:induction false} OctetTaken(img: Image, a: nat, o: nat) returns (p: nat)
    requires CoveredBy(img, a, o)
    ensures CoveredBy(img, a, p) && OctetAt(img, a) == Octets(img.recs[p])[a - p]
  {
    hide Octets;
    p :| CoveredBy(img, a, p) && OctetAt(img, a) == Octets(img.recs[p])[a - p];
  }

  /** No byte of a record is written over by another record, and none lies behind the final offset. */
  lemma {:induction false} RecordStands(img: Image, start: nat, o: nat)
    requires Packed(img, start) && o in img.recs
    ensures Stands(Buffer(img), o, img.recs[o])
  {
    hide Octets, RecBytes, OctetAt;
    var s := Octets(img.recs[o]);
    OctetsFit(img.recs[o]);
    forall k | 0 <= k < |s| ensures Buffer(img)[o + k] == s[k] {
      var p := OctetTaken(img, o + k, o);
      CoveredOnce(img, start, o + k, o, p);
    }
  }

  // ---------- reading by address ----------

  function ByteAt(buf: seq<Octet>, a: nat): nat { if a < |buf| && buf[a].Octet? then buf[a].b else 0 }

  /** A 32-bit count or length. */
  function Read4(buf: seq<Octet>, a: nat): nat {
    ByteAt(buf, a) + 256 * ByteAt(buf, a + 1) + 65536 * ByteAt(buf, a + 2) + 16777216 * ByteAt(buf, a + 3)
  }

  /** hashEntry: entry `idx` of the table at `a`, by its width. */
  function HashEntry(buf: seq<Octet>, a: nat, w: nat, idx: nat): nat {
    if w == 1 then ByteAt(buf, a + idx)
    else if w == 2 then ByteAt(buf, a + 2 * idx) + 256 * ByteAt(buf, a + 2 * idx + 1)
    else Read4(buf, a + 4 * idx)
  }

  ghost predicate SlotIs(buf: seq<Octet>, a: nat, v: MVal) {
    a + 16 <= |buf| && forall k: nat | k < 16 :: buf[a + k] == SlotByte(v, k)
  }

  ghost predicate StringIs(buf: seq<Octet>, a: nat, bytes: Name) {
    && a + 4 + |bytes| <= |buf| && Read4(buf, a) == |bytes|
    && forall k: nat | k < |bytes| :: buf[a + 4 + k] == Octet(bytes[k])
  }

  ghost predicate NameIs(buf: seq<Octet>, a: nat, name: Name) {
    exists kind: StrKind, o: nat :: SlotIs(buf, a, MStr(kind, o)) && StringIs(buf, o, name)
  }

  /** Following the offset in a slot, with the addresses that the reader computes, gives `v`. */
  ghost predicate BytesRead(buf: seq<Octet>, mv: MVal, v: Value)
    decreases v, 1
  {
    match mv
    case MImm(tag, bits) => v == Imm(tag, bits)
    case MStr(kind, off) => v.Str? && v.kind == kind && StringIs(buf, off, v.bytes)
    case MArr(off) =>
      && v.Arr? && |v.elems| == Read4(buf, off)
      && forall i: nat | i < |v.elems| :: SlotReads(buf, off + 4 + 16 * i, v.elems[i])
    case MObj(off) =>
      && v.Obj? && |v.pairs| == Read4(buf, off)
      && forall i: nat | i < |v.pairs| ::
           NameIs(buf, off + 4 + 32 * i, v.pairs[i].name) && SlotReads(buf, off + 4 + 32 * i + 16, v.pairs[i].value)
  }

  ghost predicate SlotReads(buf: seq<Octet>, a: nat, v: Value)
    decreases v, 2
  {
    exists mv: MVal :: SlotIs(buf, a, mv) && BytesRead(buf, mv, v)
  }

  // ---------- the fields of a record, at their addresses ----------

  lemma {:induction false} DigitsBack(n: nat)
    ensures n < LIMIT ==> n == Digit(n, 0) + 256 * Digit(n, 1) + 65536 * Digit(n, 2) + 16777216 * Digit(n, 3)
    ensures n < 65536 ==> n == Digit(n, 0) + 256 * Digit(n, 1)
    ensures n < 256 ==> n == Digit(n, 0)
  {
    var a := n / 256;
    var b := a / 256;
    var c := b / 256;
    assert n == n % 256 + 256 * a && a == a % 256 + 256 * b && b == b % 256 + 256 * c;
  }

  lemma {:induction false} InRecord(buf: seq<Octet>, o: nat, r: Rec, k: nat)
    requires Stands(buf, o, r) && k < |Octets(r)|
    ensures o + k < |buf| && buf[o + k] == Octets(r)[k]
  {
    assert buf[o..o + |Octets(r)|][k] == buf[o + k];
  }

  ghost predicate NumberIs(buf: seq<Octet>, a: nat, n: nat, w: nat) {
    a + w <= |buf| && forall j: nat | j < w :: buf[a + j] == Octet(Digit(n, j))
  }

  /** A number is read where it is written. */
  lemma {:induction false} NumberRead(buf: seq<Octet>, a: nat, n: nat)
    requires NumberIs(buf, a, n, 4) && n < LIMIT
    ensures Read4(buf, a) == n
  {
    DigitsBack(n);
    assert buf[a + 0] == Octet(Digit(n, 0)) && buf[a + 1] == Octet(Digit(n, 1));
    assert buf[a + 2] == Octet(Digit(n, 2)) && buf[a + 3] == Octet(Digit(n, 3));
  }

  function HeadOf(r: Rec): nat {
    match r
    case StrRec(len, _) => len
    case ArrRec(cnt, _) => cnt
    case ObjRec(cnt, _, _) => cnt
  }

  lemma {:induction false} HeadRead(buf: seq<Octet>, o: nat, r: Rec)
    requires Stands(buf, o, r) && HeadOf(r) < LIMIT
    ensures o + 4 <= |buf| && Read4(buf, o) == HeadOf(r)
  {
    assert |Octets(r)| >= 4 && forall j: nat | j < 4 :: Octets(r)[j] == Octet(Digit(HeadOf(r), j));
    forall j: nat | j < 4 ensures buf[o + j] == Octet(Digit(HeadOf(r), j)) { InRecord(buf, o, r, j); }
    NumberRead(buf, o, HeadOf(r));
  }

  lemma {:induction false} StringRead(buf: seq<Octet>, o: nat, bytes: Name)
    requires Stands(buf, o, StrRec(|bytes|, bytes)) && |bytes| < LIMIT
    ensures StringIs(buf, o, bytes)
  {
    var r := StrRec(|bytes|, bytes);
    HeadRead(buf, o, r);
    forall k: nat | k < |bytes| ensures buf[o + 4 + k] == Octet(bytes[k]) {
      assert Octets(r)[4 + k] == Chars(bytes)[k];
      InRecord(buf, o, r, 4 + k);
    }
  }

  lemma {:induction false} ElemRead(buf: seq<Octet>, o: nat, r: Rec, i: nat)
    requires r.ArrRec? && Stands(buf, o, r) && i < |r.values|
    ensures SlotIs(buf, o + 4 + 16 * i, r.values[i])
  {
    forall k: nat | k < 16 ensures o + 4 + 16 * i + k < |buf| && buf[o + 4 + 16 * i + k] == SlotByte(r.values[i], k) {
      assert Octets(r)[4 + (16 * i + k)] == Slots(r.values)[16 * i + k];
      InRecord(buf, o, r, 4 + (16 * i + k));
    }
    assert o + 4 + 16 * i + 15 < |buf|;
  }

  lemma {:induction false} PairSlot(pairs: seq<MPair>, i: nat, k: nat)
    requires i < |pairs| && k < 32
    ensures 32 * i + k < |PairSlots(pairs)|
    ensures PairSlots(pairs)[32 * i + k] == PairByte(pairs[i], k)
  {
    hide PairByte;
    var j := 32 * i + k;
    assert j / 32 == i && j % 32 == k;
  }

  /** Behind the count stand the pairs, and behind them the entries. */
  lemma {:induction false} PairOctet(r: Rec, k: nat)
    requires r.ObjRec? && k < |PairSlots(r.pairs)|
    ensures 4 + k < |Octets(r)| && Octets(r)[4 + k] == PairSlots(r.pairs)[k]
  {
    hide PairSlots, Entries, Number;
  }

  lemma {:induction false} PairRead(buf: seq<Octet>, o: nat, r: Rec, i: nat)
    requires r.ObjRec? && Stands(buf, o, r) && i < |r.pairs|
    ensures SlotIs(buf, o + 4 + 32 * i, r.pairs[i].name) && SlotIs(buf, o + 4 + 32 * i + 16, r.pairs[i].value)
  {
    hide Octets, PairSlots;
    var a := o + 4 + 32 * i;
    PairSlot(r.pairs, i, 31);
    PairOctet(r, 32 * i + 31);
    forall k: nat | k < 16 ensures buf[a + k] == SlotByte(r.pairs[i].name, k) {
      PairSlot(r.pairs, i, k);
      PairOctet(r, 32 * i + k);
      InRecord(buf, o, r, 4 + (32 * i + k));
    }
    forall k: nat | k < 16 ensures buf[a + 16 + k] == SlotByte(r.pairs[i].value, k) {
      PairSlot(r.pairs, i, 16 + k);
      PairOctet(r, 32 * i + (16 + k));
      InRecord(buf, o, r, 4 + (32 * i + (16 + k)));
    }
  }

  lemma {:induction false} TableOctet(r: Rec, k: nat)
    requires r.ObjRec? && k < |Entries(r.table, HashBytes(|r.pairs|))|
    ensures 4 + 32 * |r.pairs| + k < |Octets(r)|
    ensures Octets(r)[4 + 32 * |r.pairs| + k] == Entries(r.table, HashBytes(|r.pairs|))[k]
  {
    hide PairSlots, Entries, Number;
  }

  /** The entries before `idx` take this many bytes. */
  function Scaled(idx: nat, w: nat): nat { if w == 1 then idx else if w == 2 then 2 * idx else 4 * idx }

  lemma {:induction false} EntryOctet(table: seq<nat>, w: nat, idx: nat, j: nat)
    requires (w == 1 || w == 2 || w == 4) && idx < |table| && j < w
    ensures var k := Scaled(idx, w) + j; k < |Entries(table, w)| && Entries(table, w)[k] == Octet(Digit(table[idx], j))
  {
    if w == 2 {
      assert (2 * idx + j) / 2 == idx && (2 * idx + j) % 2 == j;
    } else if w == 4 {
      assert (4 * idx + j) / 4 == idx && (4 * idx + j) % 4 == j;
    }
  }

  /** The hash table stands behind the pairs, and every entry that its width can hold is read back. */
  lemma {:induction false} EntryRead(buf: seq<Octet>, o: nat, r: Rec, idx: nat)
    requires r.ObjRec? && Stands(buf, o, r) && idx < |r.table|
    requires Truncated(HashBytes(|r.pairs|), r.table[idx]) == r.table[idx]
    ensures HashEntry(buf, o + 4 + 32 * |r.pairs|, HashBytes(|r.pairs|), idx) == r.table[idx]
  {
    hide Octets, Entries, Digit;
    var w, e, base := HashBytes(|r.pairs|), r.table[idx], 4 + 32 * |r.pairs|;
    var x := Scaled(idx, w);
    EntryOctet(r.table, w, idx, w - 1);
    TableOctet(r, x + (w - 1));
    forall j: nat | j < w ensures buf[o + base + x + j] == Octet(Digit(e, j)) {
      EntryOctet(r.table, w, idx, j);
      TableOctet(r, x + j);
      InRecord(buf, o, r, base + (x + j));
    }
    EntryNumber(buf, o + base, w, idx, e);
  }

  lemma {:induction false} EntryNumber(buf: seq<Octet>, a: nat, w: nat, idx: nat, e: nat)
    requires (w == 1 || w == 2 || w == 4) && Truncated(w, e) == e && NumberIs(buf, a + Scaled(idx, w), e, w)
    ensures HashEntry(buf, a, w, idx) == e
  {
    hide Digit;
    var x := a + Scaled(idx, w);
    DigitsBack(e);
    assert buf[x + 0] == Octet(Digit(e, 0));
    if w == 2 {
      assert buf[x + 1] == Octet(Digit(e, 1));
    } else if w == 4 {
      NumberRead(buf, x, e);
    }
  }

  // ---------- reading the whole tree ----------

  /** All records stand in the buffer and are shorter than offsets reach. */
  ghost predicate InBuffer(recs: Recs, buf: seq<Octet>) {
    forall o | o in recs :: RecOk(recs[o]) && RecBytes(recs[o]) < LIMIT && Stands(buf, o, recs[o])
  }

  /** What the reader of records finds, the reader of bytes finds. */
  lemma {:induction false} RecsRead(recs: Recs, buf: seq<Octet>, mv: MVal, v: Value)
    requires InBuffer(recs, buf) && ReadsAs(recs, mv, v)
    ensures BytesRead(buf, mv, v)
    decreases v
  {
    hide Octets, Stands, SlotIs, StringIs;
    match mv
    case MImm(_, _) =>
    case MStr(_, off) => StringRead(buf, off, recs[off].bytes);
    case MArr(off) =>
      HeadRead(buf, off, recs[off]);
      forall i: nat | i < |v.elems| ensures SlotReads(buf, off + 4 + 16 * i, v.elems[i]) {
        ElemRead(buf, off, recs[off], i);
        RecsRead(recs, buf, recs[off].values[i], v.elems[i]);
      }
    case MObj(off) =>
      HeadRead(buf, off, recs[off]);
      forall i: nat | i < |v.pairs|
        ensures NameIs(buf, off + 4 + 32 * i, v.pairs[i].name) && SlotReads(buf, off + 4 + 32 * i + 16, v.pairs[i].value)
      {
        PairRead(buf, off, recs[off], i);
        NameRead(recs, buf, off + 4 + 32 * i, recs[off].pairs[i].name, v.pairs[i].name);
        RecsRead(recs, buf, recs[off].pairs[i].value, v.pairs[i].value);
      }
  }

  lemma {:induction false} NameRead(recs: Recs, buf: seq<Octet>, a: nat, mv: MVal, name: Name)
    requires InBuffer(recs, buf) && NameReads(recs, mv, name) && SlotIs(buf, a, mv)
    ensures NameIs(buf, a, name)
  {
    hide Octets, Stands, SlotIs, StringIs;
    StringRead(buf, mv.off, name);
    assert mv == MStr(mv.kind, mv.off);
  }

  lemma {:induction false} SlotOnce(buf: seq<Octet>, a: nat, v: MVal, w: MVal)
    requires SlotIs(buf, a, v) && SlotIs(buf, a, w)
    ensures v == w
  {
    assert buf[a + 0] == SlotByte(v, 0) && buf[a + 0] == SlotByte(w, 0);
  }

  lemma {:induction false} StringOnce(buf: seq<Octet>, a: nat, x: Name, y: Name)
    requires StringIs(buf, a, x) && StringIs(buf, a, y)
    ensures x == y
  {
    forall k: nat | k < |x| ensures x[k] == y[k] { assert buf[a + 4 + k] == Octet(x[k]) && buf[a + 4 + k] == Octet(y[k]); }
  }

  /** The bytes give one tree at most. */
  lemma {:induction false} BytesOnce(buf: seq<Octet>, mv: MVal, v: Value, w: Value)
    requires BytesRead(buf, mv, v) && BytesRead(buf, mv, w)
    ensures v == w
    decreases v, 1
  {
    hide SlotIs, StringIs;
    match mv
    case MImm(_, _) =>
    case MStr(_, off) => StringOnce(buf, off, v.bytes, w.bytes);
    case MArr(off) =>
      forall i: nat | i < |v.elems| ensures v.elems[i] == w.elems[i] {
        assert SlotReads(buf, off + 4 + 16 * i, v.elems[i]) && SlotReads(buf, off + 4 + 16 * i, w.elems[i]);
        SlotReadsOnce(buf, off + 4 + 16 * i, v.elems[i], w.elems[i]);
      }
    case MObj(off) =>
      forall i: nat | i < |v.pairs| ensures v.pairs[i] == w.pairs[i] {
        var a := off + 4 + 32 * i;
        assert NameIs(buf, a, v.pairs[i].name) && NameIs(buf, a, w.pairs[i].name);
        NameOnce(buf, a, v.pairs[i].name, w.pairs[i].name);
        assert SlotReads(buf, a + 16, v.pairs[i].value) && SlotReads(buf, a + 16, w.pairs[i].value);
        SlotReadsOnce(buf, a + 16, v.pairs[i].value, w.pairs[i].value);
      }
  }

  lemma {:induction false} SlotReadsOnce(buf: seq<Octet>, a: nat, v: Value, w: Value)
    requires SlotReads(buf, a, v) && SlotReads(buf, a, w)
    ensures v == w
    decreases v, 2
  {
    hide SlotIs;
    var x: MVal :| SlotIs(buf, a, x) && BytesRead(buf, x, v);
    var y: MVal :| SlotIs(buf, a, y) && BytesRead(buf, y, w);
    SlotOnce(buf, a, x, y);
    BytesOnce(buf, x, v, w);
  }

  lemma {:induction false} NameOnce(buf: seq<Octet>, a: nat, x: Name, y: Name)
    requires NameIs(buf, a, x) && NameIs(buf, a, y)
    ensures x == y
  {
    hide SlotIs, StringIs;
    var k: StrKind, o: nat :| SlotIs(buf, a, MStr(k, o)) && StringIs(buf, o, x);
    var l: StrKind, p: nat :| SlotIs(buf, a, MStr(l, p)) && StringIs(buf, p, y);
    SlotOnce(buf, a, MStr(k, o), MStr(l, p));
    StringOnce(buf, o, x, y);
  }

  lemma {:induction false} AllStand(img: Image, start: nat)
    requires Packed(img, start) && img.next - start < LIMIT
    ensures InBuffer(img.recs, Buffer(img))
  {
    hide Octets, RecBytes, Stands, Buffer;
    forall o | o in img.recs ensures Stands(Buffer(img), o, img.recs[o]) { RecordStands(img, start, o); }
  }

  /** The bytes that a marshal writes are read back as the tree with its arrays emptied, and as the tree itself if none is filled. */
  lemma {:induction false} BytesRoundTrip(doc: Value, start: nat, hash: Name -> nat)
    requires Bytes(doc) < LIMIT
    ensures var img := Marshaled(doc, start, hash);
            && |Buffer(img)| == start + Bytes(doc) && BytesRead(Buffer(img), img.root, Strip(doc))
            && (BytesRead(Buffer(img), img.root, doc) <==> !HasFilledArray(doc))
  {
    hide BytesRead, ReadsAs, Buffer, Holds, Packed;
    var img0, img := Image(ZERO, map[], start), Marshaled(doc, start, hash);
    NothingPacked(start);
    EmitFrame(img0, Root, doc, hash);
    EmitPacked(img0, Root, doc, hash, start);
    AllStand(img, start);
    ReadBack(doc, start, hash);
    RecsRead(img.recs, Buffer(img), img.root, Strip(doc));
    StripExact(doc);
    if BytesRead(Buffer(img), img.root, doc) { BytesOnce(Buffer(img), img.root, doc, Strip(doc)); }
  }

  lemma {:induction false} NothingPacked(start: nat)
    ensures Packed(Image(ZERO, map[], start), start) && Below(Image(ZERO, map[], start))
  {
  }

  /** The entries of a marshaled object's hash table, read by address, are those that lookups are proved for. */
  lemma {:induction false} TableRead(img: Image, start: nat, off: nat, pairs: seq<Pair>, hash: Name -> nat, idx: nat)
    requires Packed(img, start) && Holds(img.recs, MObj(off), Obj(pairs), off, hash) && |pairs| < LIMIT
    requires idx < |img.recs[off].table|
    ensures HashEntry(Buffer(img), off + 4 + 32 * |pairs|, HashBytes(|pairs|), idx) == img.recs[off].table[idx]
  {
    hide Octets, RecBytes, Buffer, Packed;
    RecordStands(img, start, off);
    WidthSuffices(|pairs|, img.recs[off].table[idx]);
    EntryRead(Buffer(img), off, img.recs[off], idx);
  }
}
