/** Where a marshal writes: sizes, untouched records, and disjoint regions. */
module MarshalLayout {
  import opened Probing
  import opened MarshalImage

  // ---------- sizes ----------

  /** The bytes the image of a value takes beside its own slot. */
  function Bytes(v: Value): nat
    decreases v, 0
  {
    match v
    case Imm(_, _) => 0
    case Str(_, bytes) => StrBytes(bytes)
    case Arr(elems) => ArrBytes(|elems|) + ElemsBytes(elems, 0)
    case Obj(pairs) => ObjBytes(|pairs|) + PairsBytes(pairs, 0)
  }

  function ElemsBytes(elems: seq<Value>, i: nat): nat
    requires i <= |elems|
    decreases elems, |elems| - i
  {
    if i == |elems| then 0 else Bytes(elems[i]) + ElemsBytes(elems, i + 1)
  }

  function PairsBytes(pairs: seq<Pair>, i: nat): nat
    requires i <= |pairs|
    decreases pairs, |pairs| - i
  {
    if i == |pairs| then 0
    else StrBytes(pairs[i].name) + Bytes(pairs[i].value) + PairsBytes(pairs, i + 1)
  }

  // ---------- what a marshal leaves alone ----------

  /** Every record starts below `next`. */
  ghost predicate Below(img: Image) {
    forall o | o in img.recs :: o < img.next
  }

  /** The slot content that refers to a value marshaled at `off`. */
  function RefOf(v: Value, off: nat): MVal {
    match v
    case Imm(tag, bits) => MImm(tag, bits)
    case Str(kind, _) => MStr(kind, off)
    case Arr(_) => MArr(off)
    case Obj(_) => MObj(off)
  }

  /** All of `a` survives in `b`, except possibly the record at `off`. */
  ghost predicate KeepsBut(a: Image, b: Image, off: nat) {
    && a.root == b.root && a.next <= b.next && Below(b)
    && (forall o | o in a.recs :: o in b.recs && (o != off ==> b.recs[o] == a.recs[o]))
    && (forall o | o in b.recs && o !in a.recs :: o >= a.next)
  }

  lemma {:induction false} KeepsTrans(a: Image, b: Image, c: Image, off: nat)
    requires KeepsBut(a, b, off) && KeepsBut(b, c, off)
    ensures KeepsBut(a, c, off)
  {
  }

  ghost predicate IsArr(img: Image, off: nat, n: nat) {
    off in img.recs && img.recs[off].ArrRec? && |img.recs[off].values| == n
  }

  ghost predicate IsObj(img: Image, off: nat, n: nat) {
    && off in img.recs && img.recs[off].ObjRec? && |img.recs[off].pairs| == n
    && |img.recs[off].table| == 3 * n / 2
  }

  /** `b` is `a` with the reference to `v` stored at `p`, and with new records from `a.next` on. */
  ghost predicate Framed(a: Image, b: Image, p: Ptr, v: Value) {
    var st := Store(a, p, RefOf(v, a.next));
    && Below(b) && b.next == a.next + Bytes(v) && b.root == st.root
    && (forall o | o in a.recs :: o in b.recs && b.recs[o] == st.recs[o])
    && (forall o | o in b.recs && o !in a.recs :: o >= a.next)
  }

  lemma {:induction false} ElemFramed(a: Image, b: Image, off: nat, n: nat, i: nat, v: Value)
    requires IsArr(a, off, n) && i < n && Framed(a, b, Elem(off, i), v)
    ensures KeepsBut(a, b, off) && IsArr(b, off, n) && b.recs[off].cnt == a.recs[off].cnt
    ensures b.recs[off].values == a.recs[off].values[i := RefOf(v, a.next)]
  {
  }

  lemma {:induction false} PairValueFramed(a: Image, b: Image, off: nat, n: nat, i: nat, v: Value)
    requires IsObj(a, off, n) && i < n && Framed(a, b, PairValue(off, i), v)
    ensures KeepsBut(a, b, off) && IsObj(b, off, n)
    ensures b.recs[off].cnt == a.recs[off].cnt && b.recs[off].table == a.recs[off].table
    ensures b.recs[off].pairs == a.recs[off].pairs[i := a.recs[off].pairs[i].(value := RefOf(v, a.next))]
  {
  }

  /** Filling the slots of a record opened for `v` leaves what was there before framed. */
  lemma {:induction false} OpenThenFill(img: Image, p: Ptr, v: Value, r: Rec, b: Image)
    requires Below(img) && KeepsBut(Append(Store(img, p, RefOf(v, img.next)), r), b, img.next)
    requires b.next == img.next + Bytes(v)
    ensures Framed(img, b, p, v)
  {
  }

  lemma {:induction false} EmitFrame(img: Image, p: Ptr, v: Value, hash: Name -> nat)
    requires Below(img) && PtrOk(img, p)
    ensures Framed(img, Emit(img, p, v, hash), p, v)
    decreases v, 0
  {
    match v
    case Imm(_, _) =>
    case Str(_, bytes) =>
    case Arr(elems) =>
      var img1 := OpenArr(img, p, |elems|);
      ElemsFrame(img1, img.next, elems, 0, hash);
      OpenThenFill(img, p, v, img1.recs[img.next], EmitElems(img1, img.next, elems, 0, hash));
    case Obj(pairs) =>
      var img1 := OpenObj(img, p, |pairs|);
      PairsFrame(img1, img.next, pairs, 0, hash);
      OpenThenFill(img, p, v, img1.recs[img.next], EmitPairs(img1, img.next, pairs, 0, hash));
  }

  /** The elements from `i` on fill their own slots of the record at `off`. */
  lemma {:induction false} ElemsFrame(img: Image, off: nat, elems: seq<Value>, i: nat, hash: Name -> nat)
    requires i <= |elems| && Below(img) && IsArr(img, off, |elems|)
    ensures var img' := EmitElems(img, off, elems, i, hash);
            && KeepsBut(img, img', off) && IsArr(img', off, |elems|)
            && img'.next == img.next + ElemsBytes(elems, i)
            && img'.recs[off].cnt == img.recs[off].cnt
            && img'.recs[off].values[..i] == img.recs[off].values[..i]
    decreases elems, |elems| - i
  {
    if i < |elems| {
      EmitFrame(img, Elem(off, i), elems[i], hash);
      var img1 := Emit(img, Elem(off, i), elems[i], hash);
      ElemFramed(img, img1, off, |elems|, i, elems[i]);
      ElemsFrame(img1, off, elems, i + 1, hash);
      var img2 := EmitElems(img1, off, elems, i + 1, hash);
      KeepsTrans(img, img1, img2, off);
      SlotsKept(img.recs[off].values, img1.recs[off].values, img2.recs[off].values, i);
    }
  }

  lemma {:induction false} SlotsKept<T>(a: seq<T>, b: seq<T>, c: seq<T>, i: nat)
    requires i < |a| == |b| == |c| && b == a[i := b[i]] && c[..i + 1] == b[..i + 1]
    ensures c[..i] == a[..i]
  {
    assert c[..i] == c[..i + 1][..i];
    assert b[..i] == b[..i + 1][..i];
  }

  lemma {:induction false} PutPairFrame(img: Image, off: nat, n: nat, i: nat, name: Name, hash: Name -> nat)
    requires Below(img) && IsObj(img, off, n) && i < n
    ensures var img' := PutPair(img, off, n, i, name, hash);
            && KeepsBut(img, img', off) && IsObj(img', off, n)
            && img'.next == img.next + StrBytes(name)
            && img'.recs[off].cnt == n
            && img'.recs[off].pairs == img.recs[off].pairs[i := img.recs[off].pairs[i].(name := MStr(KString, img.next))]
            && img.next in img'.recs && img'.recs[img.next] == StrRec(|name|, name)
  {
  }

  /** Pair `i` as stored when its name goes to `at`. */
  function PairRef(pair: Pair, at: nat): MPair {
    MPair(MStr(KString, at), RefOf(pair.value, at + StrBytes(pair.name)))
  }

  lemma {:induction false} PairFrame(img: Image, off: nat, pairs: seq<Pair>, i: nat, hash: Name -> nat)
    requires i < |pairs| && Below(img) && IsObj(img, off, |pairs|)
    ensures var img' := EmitPair(img, off, pairs, i, hash);
            && KeepsBut(img, img', off) && IsObj(img', off, |pairs|)
            && img'.next == img.next + StrBytes(pairs[i].name) + Bytes(pairs[i].value)
            && img'.recs[off].cnt == |pairs|
            && img'.recs[off].pairs == img.recs[off].pairs[i := PairRef(pairs[i], img.next)]
            && img'.recs[off].table == PutPair(img, off, |pairs|, i, pairs[i].name, hash).recs[off].table
            && img.next in img'.recs && img'.recs[img.next] == StrRec(|pairs[i].name|, pairs[i].name)
    decreases pairs, |pairs| - i, 0
  {
    var name, v := pairs[i].name, pairs[i].value;
    PutPairFrame(img, off, |pairs|, i, name, hash);
    var img1 := PutPair(img, off, |pairs|, i, name, hash);
    EmitFrame(img1, PairValue(off, i), v, hash);
    var img2 := Emit(img1, PairValue(off, i), v, hash);
    PairValueFramed(img1, img2, off, |pairs|, i, v);
    KeepsTrans(img, img1, img2, off);
  }

  lemma {:induction false} PairsFrame(img: Image, off: nat, pairs: seq<Pair>, i: nat, hash: Name -> nat)
    requires i <= |pairs| && Below(img) && IsObj(img, off, |pairs|)
    ensures var img' := EmitPairs(img, off, pairs, i, hash);
            && KeepsBut(img, img', off) && IsObj(img', off, |pairs|)
            && img'.next == img.next + PairsBytes(pairs, i)
            && img'.recs[off].cnt == (if i < |pairs| then |pairs| else img.recs[off].cnt)
            && img'.recs[off].pairs[..i] == img.recs[off].pairs[..i]
    decreases pairs, |pairs| - i, 1
  {
    if i < |pairs| {
      PairFrame(img, off, pairs, i, hash);
      var img1 := EmitPair(img, off, pairs, i, hash);
      PairsFrame(img1, off, pairs, i + 1, hash);
      var img2 := EmitPairs(img1, off, pairs, i + 1, hash);
      KeepsTrans(img, img1, img2, off);
      SlotsKept(img.recs[off].pairs, img1.recs[off].pairs, img2.recs[off].pairs, i);
    }
  }
}
