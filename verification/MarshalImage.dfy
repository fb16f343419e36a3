/**
 The marshaled document: records at byte offsets of one zeroed buffer. This module has the
 value trees, the image, what a marshal of a tree puts where, and how long that is.
 */
module MarshalImage {
  import opened Probing

  datatype StrKind = KString | KMd5 | KUuid | KKey

  /** An in-memory value. Immediate values carry their type and bits along unchanged. */
  datatype Value =
    | Imm(tag: nat, bits: int)
    | Str(kind: StrKind, bytes: Name)
    | Arr(elems: seq<Value>)
    | Obj(pairs: seq<Pair>)

  datatype Pair = Pair(name: Name, value: Value)

  /** A value slot in the image: immediate, or a marshaled reference by offset. */
  datatype MVal = MImm(tag: nat, bits: int) | MStr(kind: StrKind, off: nat) | MArr(off: nat) | MObj(off: nat)

  datatype MPair = MPair(name: MVal, value: MVal)

  /** A zeroed slot reads as the undefined value. */
  const ZERO := MImm(0, 0)

  datatype Rec =
    | StrRec(len: nat, bytes: Name)
    | ArrRec(cnt: nat, values: seq<MVal>)
    | ObjRec(cnt: nat, pairs: seq<MPair>, table: seq<nat>)

  const SIZEOF_STRING := 4  // string_t
  const SIZEOF_ARRAY := 4   // dbarray_t
  const SIZEOF_OBJECT := 4  // dbobject_t
  const SIZEOF_VALUE := 16  // value_t
  const SIZEOF_PAIR := 32   // pair_t

  function StrBytes(bytes: Name): nat { |bytes| + SIZEOF_STRING + 1 }

  function ArrBytes(cnt: nat): nat { SIZEOF_ARRAY + SIZEOF_VALUE * cnt }

  function ObjBytes(cnt: nat): nat { SIZEOF_OBJECT + cnt * SIZEOF_PAIR + (3 * cnt / 2) * HashBytes(cnt) }

  /** The bytes a record occupies. */
  function RecBytes(r: Rec): nat {
    match r
    case StrRec(_, bytes) => StrBytes(bytes)
    case ArrRec(_, values) => ArrBytes(|values|)
    case ObjRec(_, pairs, _) => ObjBytes(|pairs|)
  }

  /** A string carries its own length, and an object's table has 3n/2 entries. */
  predicate RecOk(r: Rec) {
    match r
    case StrRec(len, bytes) => len == |bytes|
    case ArrRec(cnt, values) => cnt <= |values|
    case ObjRec(cnt, pairs, table) => cnt <= |pairs| && |table| == 3 * |pairs| / 2
  }

  /** The place the next value is stored at. */
  datatype Ptr = Root | Elem(off: nat, i: nat) | PairValue(off: nat, i: nat)

  datatype Image = Image(root: MVal, recs: map<nat, Rec>, next: nat)

  predicate PtrOk(img: Image, p: Ptr) {
    match p
    case Root => true
    case Elem(off, i) => off in img.recs && img.recs[off].ArrRec? && i < |img.recs[off].values|
    case PairValue(off, i) => off in img.recs && img.recs[off].ObjRec? && i < |img.recs[off].pairs|
  }

  function Store(img: Image, p: Ptr, v: MVal): (img': Image)
    ensures img'.next == img.next && img'.recs.Keys == img.recs.Keys
  {
    if !PtrOk(img, p) then img else
    match p
    case Root => img.(root := v)
    case Elem(off, i) =>
      var r := img.recs[off];
      img.(recs := img.recs[off := r.(values := r.values[i := v])])
    case PairValue(off, i) =>
      var r := img.recs[off];
      img.(recs := img.recs[off := r.(pairs := r.pairs[i := r.pairs[i].(value := v)])])
  }

  function Append(img: Image, r: Rec): (img': Image)
  {
    Image(img.root, img.recs[img.next := r], img.next + RecBytes(r))
  }

  // ---------- header and pair steps ----------

  /** A new array record: the buffer is zeroed and no count is stored. */
  function OpenArr(img: Image, p: Ptr, n: nat): Image {
    Append(Store(img, p, MArr(img.next)), ArrRec(0, seq(n, _ => ZERO)))
  }

  function OpenObj(img: Image, p: Ptr, n: nat): Image {
    Append(Store(img, p, MObj(img.next)), ObjRec(0, seq(n, _ => MPair(ZERO, ZERO)), seq(3 * n / 2, _ => 0)))
  }

  function PutStr(img: Image, p: Ptr, kind: StrKind, bytes: Name): Image {
    Append(Store(img, p, MStr(kind, img.next)), StrRec(|bytes|, bytes))
  }

  /** First empty bucket from `start`, looking at no more than the whole table. */
  function FirstEmpty(table: seq<nat>, start: nat, d: nat): (h: nat)
    requires start < |table| && d < |table|
    ensures h < |table|
    decreases |table| - d
  {
    if table[Wrap(start, d, |table|)] == 0 || d + 1 == |table| then Wrap(start, d, |table|)
    else FirstEmpty(table, start, d + 1)
  }

  predicate PairOk(img: Image, off: nat, i: nat) {
    && off in img.recs && img.recs[off].ObjRec? && i < |img.recs[off].pairs|
    && |img.recs[off].table| == 3 * |img.recs[off].pairs| / 2
  }

  /** Stores count, hash entry and name of pair `i` of the object record at `off`. */
  function PutPair(img: Image, off: nat, n: nat, i: nat, name: Name, hash: Name -> nat): (img': Image)
  {
    if !PairOk(img, off, i) then img else
    var r := img.recs[off];
    var h := FirstEmpty(r.table, Home(hash, name, |r.table|), 0);
    var r' := ObjRec(n, r.pairs[i := r.pairs[i].(name := MStr(KString, img.next))],
                     HashStore(r.table, HashBytes(n), h, i + 1));
    Append(img.(recs := img.recs[off := r']), StrRec(|name|, name))
  }

  // ---------- the image of a tree ----------

  function Emit(img: Image, p: Ptr, v: Value, hash: Name -> nat): Image
    decreases v, 0
  {
    match v
    case Imm(tag, bits) => Store(img, p, MImm(tag, bits))
    case Str(kind, bytes) => PutStr(img, p, kind, bytes)
    case Arr(elems) => EmitElems(OpenArr(img, p, |elems|), img.next, elems, 0, hash)
    case Obj(pairs) => EmitPairs(OpenObj(img, p, |pairs|), img.next, pairs, 0, hash)
  }

  function EmitElems(img: Image, off: nat, elems: seq<Value>, i: nat, hash: Name -> nat): Image
    requires i <= |elems|
    decreases elems, |elems| - i
  {
    if i == |elems| then img
    else EmitElems(Emit(img, Elem(off, i), elems[i], hash), off, elems, i + 1, hash)
  }

  /** One turn of the object loop: pair `i` gets its name and its value. */
  function EmitPair(img: Image, off: nat, pairs: seq<Pair>, i: nat, hash: Name -> nat): Image
    requires i < |pairs|
    decreases pairs, |pairs| - i, 0
  {
    Emit(PutPair(img, off, |pairs|, i, pairs[i].name, hash), PairValue(off, i), pairs[i].value, hash)
  }

  function EmitPairs(img: Image, off: nat, pairs: seq<Pair>, i: nat, hash: Name -> nat): Image
    requires i <= |pairs|
    decreases pairs, |pairs| - i, 1
  {
    if i == |pairs| then img
    else EmitPairs(EmitPair(img, off, pairs, i, hash), off, pairs, i + 1, hash)
  }
}
