/** The regions a marshal writes never overlap and stay below its final offset. */
module MarshalRegions {
  import opened Probing
  import opened MarshalImage
  import opened MarshalLayout

  /** Records lie one after the other between `start` and `next`, without overlap. */
  ghost predicate Packed(img: Image, start: nat) {
    && start <= img.next
    && (forall o | o in img.recs :: RecOk(img.recs[o]) && start <= o && o + RecBytes(img.recs[o]) <= img.next)
    && (forall o, p | o in img.recs && p in img.recs && o < p :: o + RecBytes(img.recs[o]) <= p)
  }

  lemma {:induction false} PackedBelow(img: Image, start: nat)
    requires Packed(img, start)
    ensures Below(img)
  {
    forall o | o in img.recs ensures o < img.next { assert RecBytes(img.recs[o]) > 0; }
  }

  lemma {:induction false} ResizeFree(img: Image, img': Image, start: nat)
    requires Packed(img, start) && img'.next == img.next && img'.recs.Keys == img.recs.Keys
    requires forall o | o in img.recs :: RecOk(img'.recs[o]) && RecBytes(img'.recs[o]) == RecBytes(img.recs[o])
    ensures Packed(img', start)
  {
  }

  lemma {:induction false} StorePacked(img: Image, p: Ptr, v: MVal, start: nat)
    requires Packed(img, start)
    ensures Packed(Store(img, p, v), start)
  {
    ResizeFree(img, Store(img, p, v), start);
  }

  lemma {:induction false} AppendPacked(img: Image, r: Rec, start: nat)
    requires Packed(img, start) && RecOk(r)
    ensures Packed(Append(img, r), start)
  {
    PackedBelow(img, start);
  }

  lemma {:induction false} PutPairPacked(img: Image, off: nat, n: nat, i: nat, name: Name, hash: Name -> nat, start: nat)
    requires Packed(img, start) && IsObj(img, off, n) && i < n
    ensures Packed(PutPair(img, off, n, i, name, hash), start)
  {
    var r := img.recs[off];
    var h := FirstEmpty(r.table, Home(hash, name, |r.table|), 0);
    var r' := ObjRec(n, r.pairs[i := r.pairs[i].(name := MStr(KString, img.next))],
                     HashStore(r.table, HashBytes(n), h, i + 1));
    var img1 := img.(recs := img.recs[off := r']);
    ResizeFree(img, img1, start);
    AppendPacked(img1, StrRec(|name|, name), start);
  }

  /** Every marshal keeps the regions packed. */
  lemma {:induction false} EmitPacked(img: Image, p: Ptr, v: Value, hash: Name -> nat, start: nat)
    requires Packed(img, start) && PtrOk(img, p)
    ensures Packed(Emit(img, p, v, hash), start)
    decreases v, 0
  {
    PackedBelow(img, start);
    var st := Store(img, p, RefOf(v, img.next));
    StorePacked(img, p, RefOf(v, img.next), start);
    match v
    case Imm(_, _) =>
    case Str(_, bytes) =>
      AppendPacked(st, StrRec(|bytes|, bytes), start);
    case Arr(elems) =>
      var img1 := OpenArr(img, p, |elems|);
      AppendPacked(st, img1.recs[img.next], start);
      ElemsPacked(img1, img.next, elems, 0, hash, start);
    case Obj(pairs) =>
      var img1 := OpenObj(img, p, |pairs|);
      AppendPacked(st, img1.recs[img.next], start);
      PairsPacked(img1, img.next, pairs, 0, hash, start);
  }

  lemma {:induction false} ElemsPacked(img: Image, off: nat, elems: seq<Value>, i: nat, hash: Name -> nat, start: nat)
    requires i <= |elems| && Packed(img, start) && IsArr(img, off, |elems|)
    ensures Packed(EmitElems(img, off, elems, i, hash), start)
    decreases elems, |elems| - i
  {
    if i < |elems| {
      PackedBelow(img, start);
      EmitFrame(img, Elem(off, i), elems[i], hash);
      EmitPacked(img, Elem(off, i), elems[i], hash, start);
      var img1 := Emit(img, Elem(off, i), elems[i], hash);
      ElemFramed(img, img1, off, |elems|, i, elems[i]);
      ElemsPacked(img1, off, elems, i + 1, hash, start);
    }
  }

  lemma {:induction false} PairsPacked(img: Image, off: nat, pairs: seq<Pair>, i: nat, hash: Name -> nat, start: nat)
    requires i <= |pairs| && Packed(img, start) && IsObj(img, off, |pairs|)
    ensures Packed(EmitPairs(img, off, pairs, i, hash), start)
    decreases pairs, |pairs| - i
  {
    if i < |pairs| {
      PackedBelow(img, start);
      PutPairFrame(img, off, |pairs|, i, pairs[i].name, hash);
      PutPairPacked(img, off, |pairs|, i, pairs[i].name, hash, start);
      EmitPacked(PutPair(img, off, |pairs|, i, pairs[i].name, hash), PairValue(off, i), pairs[i].value, hash, start);
      PairFrame(img, off, pairs, i, hash);
      var img1 := EmitPair(img, off, pairs, i, hash);
      PairsPacked(img1, off, pairs, i + 1, hash, start);
    }
  }

  // ---------- calcSize ----------

  /** What calcSize adds for a value: a vt_key value is missing from its cases. */
  function CalcBytes(v: Value): nat
    decreases v, 0
  {
    match v
    case Imm(_, _) => 0
    case Str(kind, bytes) => if kind == KKey then 0 else StrBytes(bytes)
    case Arr(elems) => ArrBytes(|elems|) + CalcElems(elems, 0)
    case Obj(pairs) => ObjBytes(|pairs|) + CalcPairs(pairs, 0)
  }

  function CalcElems(elems: seq<Value>, i: nat): nat
    requires i <= |elems|
    decreases elems, |elems| - i
  {
    if i == |elems| then 0 else CalcBytes(elems[i]) + CalcElems(elems, i + 1)
  }

  function CalcPairs(pairs: seq<Pair>, i: nat): nat
    requires i <= |pairs|
    decreases pairs, |pairs| - i
  {
    if i == |pairs| then 0 else StrBytes(pairs[i].name) + CalcBytes(pairs[i].value) + CalcPairs(pairs, i + 1)
  }

  predicate HasKey(v: Value)
    decreases v, 0
  {
    match v
    case Imm(_, _) => false
    case Str(kind, _) => kind == KKey
    case Arr(elems) => exists e | e in elems :: HasKey(e)
    case Obj(pairs) => exists p | p in pairs :: HasKey(p.value)
  }

  /** calcSize never asks for too much, and for too little exactly when a key value is in the tree. */
  lemma {:induction false} CalcExact(v: Value)
    ensures CalcBytes(v) <= Bytes(v)
    ensures CalcBytes(v) == Bytes(v) <==> !HasKey(v)
    decreases v, 0
  {
    match v
    case Imm(_, _) =>
    case Str(_, _) =>
    case Arr(elems) =>
      CalcElemsExact(elems, 0);
      assert elems[0..] == elems;
    case Obj(pairs) =>
      CalcPairsExact(pairs, 0);
      assert pairs[0..] == pairs;
  }

  lemma {:induction false} CalcElemsExact(elems: seq<Value>, i: nat)
    requires i <= |elems|
    ensures CalcElems(elems, i) <= ElemsBytes(elems, i)
    ensures CalcElems(elems, i) == ElemsBytes(elems, i) <==> !exists e | e in elems[i..] :: HasKey(e)
    decreases elems, |elems| - i
  {
    if i < |elems| {
      CalcExact(elems[i]);
      CalcElemsExact(elems, i + 1);
      assert elems[i..] == [elems[i]] + elems[i + 1..];
    }
  }

  lemma {:induction false} CalcPairsExact(pairs: seq<Pair>, i: nat)
    requires i <= |pairs|
    ensures CalcPairs(pairs, i) <= PairsBytes(pairs, i)
    ensures CalcPairs(pairs, i) == PairsBytes(pairs, i) <==> !exists p | p in pairs[i..] :: HasKey(p.value)
    decreases pairs, |pairs| - i
  {
    if i < |pairs| {
      CalcExact(pairs[i].value);
      CalcPairsExact(pairs, i + 1);
      assert pairs[i..] == [pairs[i]] + pairs[i + 1..];
    }
  }
}
