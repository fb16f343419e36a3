/** Reading an image back by its offsets, and what comes back. */
module MarshalReading {
  import opened Probing
  import opened MarshalImage
  import opened MarshalLayout

  type Recs = map<nat, Rec>

  function NamesOf(pairs: seq<Pair>, n: nat): (names: seq<Name>)
    requires n <= |pairs|
    ensures |names| == n && forall i | 0 <= i < n :: names[i] == pairs[i].name
  {
    seq(n, i requires 0 <= i < n => pairs[i].name)
  }

  // ---------- the image holds the tree ----------

  /** The image at `lo`, referred to by `mv`, holds `v`: every slot, name and hash entry of it. */
  ghost predicate Holds(recs: Recs, mv: MVal, v: Value, lo: nat, hash: Name -> nat)
    decreases v, 0
  {
    && mv == RefOf(v, lo)
    && match v
       case Imm(_, _) => true
       case Str(_, bytes) => lo in recs && recs[lo] == StrRec(|bytes|, bytes)
       case Arr(elems) =>
         && lo in recs && recs[lo].ArrRec? && recs[lo].cnt == 0 && |recs[lo].values| == |elems|
         && HoldsElems(recs, recs[lo].values, elems, 0, lo + ArrBytes(|elems|), hash)
       case Obj(pairs) =>
         && lo in recs && recs[lo].ObjRec? && recs[lo].cnt == |pairs| == |recs[lo].pairs|
         && (pairs != [] ==> TableOk(recs[lo].table, hash, NamesOf(pairs, |pairs|)))
         && |recs[lo].table| == 3 * |pairs| / 2
         && HoldsPairs(recs, recs[lo].pairs, pairs, 0, lo + ObjBytes(|pairs|), hash)
  }

  ghost predicate HoldsElems(recs: Recs, values: seq<MVal>, elems: seq<Value>, i: nat, lo: nat, hash: Name -> nat)
    requires i <= |elems| == |values|
    decreases elems, |elems| - i
  {
    i < |elems| ==>
      && Holds(recs, values[i], elems[i], lo, hash)
      && HoldsElems(recs, values, elems, i + 1, lo + Bytes(elems[i]), hash)
  }

  ghost predicate HoldsPairs(recs: Recs, mpairs: seq<MPair>, pairs: seq<Pair>, i: nat, lo: nat, hash: Name -> nat)
    requires i <= |pairs| == |mpairs|
    decreases pairs, |pairs| - i
  {
    i < |pairs| ==>
      var name := pairs[i].name;
      && mpairs[i].name == MStr(KString, lo) && lo in recs && recs[lo] == StrRec(|name|, name)
      && Holds(recs, mpairs[i].value, pairs[i].value, lo + StrBytes(name), hash)
      && HoldsPairs(recs, mpairs, pairs, i + 1, lo + StrBytes(name) + Bytes(pairs[i].value), hash)
  }

  // ---------- later writes do not disturb it ----------

  ghost predicate SameIn(a: Recs, b: Recs, lo: nat, hi: nat) {
    forall o | o in a && lo <= o < hi :: o in b && b[o] == a[o]
  }

  lemma {:induction false} HoldsFrame(a: Recs, b: Recs, mv: MVal, v: Value, lo: nat, hash: Name -> nat)
    requires Holds(a, mv, v, lo, hash) && SameIn(a, b, lo, lo + Bytes(v))
    ensures Holds(b, mv, v, lo, hash)
    decreases v, 0
  {
    match v
    case Imm(_, _) =>
    case Str(_, bytes) =>
    case Arr(elems) =>
      HoldsElemsFrame(a, b, a[lo].values, elems, 0, lo + ArrBytes(|elems|), hash);
    case Obj(pairs) =>
      HoldsPairsFrame(a, b, a[lo].pairs, pairs, 0, lo + ObjBytes(|pairs|), hash);
  }

  lemma {:induction false} HoldsElemsFrame(
      a: Recs, b: Recs, values: seq<MVal>, elems: seq<Value>, i: nat, lo: nat, hash: Name -> nat)
    requires i <= |elems| == |values| && HoldsElems(a, values, elems, i, lo, hash)
    requires SameIn(a, b, lo, lo + ElemsBytes(elems, i))
    ensures HoldsElems(b, values, elems, i, lo, hash)
    decreases elems, |elems| - i
  {
    if i < |elems| {
      HoldsFrame(a, b, values[i], elems[i], lo, hash);
      HoldsElemsFrame(a, b, values, elems, i + 1, lo + Bytes(elems[i]), hash);
    }
  }

  lemma {:induction false} HoldsPairsFrame(
      a: Recs, b: Recs, mpairs: seq<MPair>, pairs: seq<Pair>, i: nat, lo: nat, hash: Name -> nat)
    requires i <= |pairs| == |mpairs| && HoldsPairs(a, mpairs, pairs, i, lo, hash)
    requires SameIn(a, b, lo, lo + PairsBytes(pairs, i))
    ensures HoldsPairs(b, mpairs, pairs, i, lo, hash)
    decreases pairs, |pairs| - i
  {
    if i < |pairs| {
      var at := lo + StrBytes(pairs[i].name);
      HoldsFrame(a, b, mpairs[i].value, pairs[i].value, at, hash);
      HoldsPairsFrame(a, b, mpairs, pairs, i + 1, at + Bytes(pairs[i].value), hash);
    }
  }

  // ---------- a marshal establishes it ----------

  const LIMIT := 0x1_0000_0000 // offsets have 32 bits

  lemma {:induction false} EmitHolds(img: Image, p: Ptr, v: Value, hash: Name -> nat)
    requires Below(img) && PtrOk(img, p) && Bytes(v) < LIMIT
    ensures Holds(Emit(img, p, v, hash).recs, RefOf(v, img.next), v, img.next, hash)
    decreases v, 0
  {
    match v
    case Imm(_, _) =>
    case Str(_, _) =>
    case Arr(elems) => ArrHolds(img, p, elems, hash);
    case Obj(pairs) => ObjHolds(img, p, pairs, hash);
  }

  lemma {:induction false} ArrHolds(img: Image, p: Ptr, elems: seq<Value>, hash: Name -> nat)
    requires Below(img) && PtrOk(img, p) && Bytes(Arr(elems)) < LIMIT
    ensures Holds(Emit(img, p, Arr(elems), hash).recs, MArr(img.next), Arr(elems), img.next, hash)
    decreases elems, |elems| + 1
  {
    var img1 := OpenArr(img, p, |elems|);
    ElemsHold(img1, img.next, elems, 0, hash);
    ElemsFrame(img1, img.next, elems, 0, hash);
  }

  lemma {:induction false} ObjHolds(img: Image, p: Ptr, pairs: seq<Pair>, hash: Name -> nat)
    requires Below(img) && PtrOk(img, p) && Bytes(Obj(pairs)) < LIMIT
    ensures Holds(Emit(img, p, Obj(pairs), hash).recs, MObj(img.next), Obj(pairs), img.next, hash)
    decreases pairs, |pairs| + 1
  {
    OpenObjReady(img, p, pairs, hash);
    var img1 := OpenObj(img, p, |pairs|);
    PairsHold(img1, img.next, pairs, 0, hash);
    PairsTable(img1, img.next, pairs, 0, hash);
    PairsFrame(img1, img.next, pairs, 0, hash);
  }

  lemma {:induction false} OpenObjReady(img: Image, p: Ptr, pairs: seq<Pair>, hash: Name -> nat)
    requires Below(img)
    ensures var img1 := OpenObj(img, p, |pairs|);
            && Below(img1) && IsObj(img1, img.next, |pairs|) && img1.next == img.next + ObjBytes(|pairs|)
            && img1.recs[img.next].cnt == 0
            && (pairs != [] ==> TableOk(img1.recs[img.next].table, hash, NamesOf(pairs, 0)))
  {
    if pairs != [] {
      EmptyTable(3 * |pairs| / 2, hash);
    }
  }

  lemma {:induction false} ElemsHold(img: Image, off: nat, elems: seq<Value>, i: nat, hash: Name -> nat)
    requires i <= |elems| && Below(img) && IsArr(img, off, |elems|) && ElemsBytes(elems, i) < LIMIT
    ensures var img' := EmitElems(img, off, elems, i, hash);
            IsArr(img', off, |elems|) && HoldsElems(img'.recs, img'.recs[off].values, elems, i, img.next, hash)
    decreases elems, |elems| - i
  {
    ElemsFrame(img, off, elems, i, hash);
    if i < |elems| {
      var v := elems[i];
      EmitFrame(img, Elem(off, i), v, hash);
      EmitHolds(img, Elem(off, i), v, hash);
      var img1 := Emit(img, Elem(off, i), v, hash);
      ElemFramed(img, img1, off, |elems|, i, v);
      ElemsHold(img1, off, elems, i + 1, hash);
      ElemsFrame(img1, off, elems, i + 1, hash);
      var img2 := EmitElems(img1, off, elems, i + 1, hash);
      assert img2.recs[off].values[i] == img2.recs[off].values[..i + 1][i] == RefOf(v, img.next);
      HoldsFrame(img1.recs, img2.recs, RefOf(v, img.next), v, img.next, hash);
    }
  }

  lemma {:induction false} FirstEmptyReaches(table: seq<nat>, start: nat, d: nat)
    requires start < |table| && d < |table| && HasFree(table) && Clear(table, start, d)
    ensures var h := FirstEmpty(table, start, d); table[h] == 0 && Reaches(table, start, h)
    decreases |table| - d
  {
    if table[Wrap(start, d, |table|)] != 0 {
      assert Clear(table, start, d + 1);
      if d + 1 == |table| {
        FullCircle(table, start);
      } else {
        FirstEmptyReaches(table, start, d + 1);
      }
    }
  }

  /** The hash entry of pair `i` joins those of the pairs before it. */
  lemma {:induction false} PutPairTable(img: Image, off: nat, pairs: seq<Pair>, i: nat, hash: Name -> nat)
    requires IsObj(img, off, |pairs|) && i < |pairs| < LIMIT
    requires TableOk(img.recs[off].table, hash, NamesOf(pairs, i)) && Below(img)
    ensures var img' := PutPair(img, off, |pairs|, i, pairs[i].name, hash);
            off in img'.recs && img'.recs[off].ObjRec? && TableOk(img'.recs[off].table, hash, NamesOf(pairs, i + 1))
  {
    var table, name := img.recs[off].table, pairs[i].name;
    FreeBucket(table, hash, NamesOf(pairs, i));
    FirstEmptyReaches(table, Home(hash, name, |table|), 0);
    WidthSuffices(|pairs|, i + 1);
    StoreKeeps(table, hash, NamesOf(pairs, i), name, FirstEmpty(table, Home(hash, name, |table|), 0));
    assert NamesOf(pairs, i + 1) == NamesOf(pairs, i) + [name];
  }

  lemma {:induction false} PairsTable(img: Image, off: nat, pairs: seq<Pair>, i: nat, hash: Name -> nat)
    requires i <= |pairs| < LIMIT && Below(img) && IsObj(img, off, |pairs|)
    requires pairs != [] ==> TableOk(img.recs[off].table, hash, NamesOf(pairs, i))
    ensures var img' := EmitPairs(img, off, pairs, i, hash);
            && IsObj(img', off, |pairs|)
            && (pairs != [] ==> TableOk(img'.recs[off].table, hash, NamesOf(pairs, |pairs|)))
    decreases |pairs| - i
  {
    if i < |pairs| {
      PairFrame(img, off, pairs, i, hash);
      PutPairTable(img, off, pairs, i, hash);
      PairsTable(EmitPair(img, off, pairs, i, hash), off, pairs, i + 1, hash);
    }
  }

  lemma {:induction false} PairsHold(img: Image, off: nat, pairs: seq<Pair>, i: nat, hash: Name -> nat)
    requires i <= |pairs| && Below(img) && IsObj(img, off, |pairs|) && PairsBytes(pairs, i) < LIMIT
    ensures var img' := EmitPairs(img, off, pairs, i, hash);
            IsObj(img', off, |pairs|) && HoldsPairs(img'.recs, img'.recs[off].pairs, pairs, i, img.next, hash)
    decreases pairs, |pairs| - i, 1
  {
    hide Holds, HoldsPairs, EmitPair, IsObj, Below;
    if i == |pairs| {
      NoPairsHold(img, off, pairs, hash);
    } else {
      PairReady(img, off, pairs, i, hash);
      PairsHold(EmitPair(img, off, pairs, i, hash), off, pairs, i + 1, hash);
      PairHolds(img, off, pairs, i, hash);
      PairSurvives(img, off, pairs, i, hash);
      var img' := EmitPairs(img, off, pairs, i, hash);
      ObjIsThere(img', off, |pairs|);
      HoldsPairsHead(img'.recs, img'.recs[off].pairs, pairs, i, img.next, hash);
    }
  }

  lemma {:induction false} ObjIsThere(img: Image, off: nat, n: nat)
    requires IsObj(img, off, n)
    ensures off in img.recs && img.recs[off].ObjRec? && |img.recs[off].pairs| == n
  {
  }

  lemma {:induction false} NoPairsHold(img: Image, off: nat, pairs: seq<Pair>, hash: Name -> nat)
    requires IsObj(img, off, |pairs|)
    ensures HoldsPairs(img.recs, img.recs[off].pairs, pairs, |pairs|, img.next, hash)
  {
  }

  lemma {:induction false} PairReady(img: Image, off: nat, pairs: seq<Pair>, i: nat, hash: Name -> nat)
    requires i < |pairs| && Below(img) && IsObj(img, off, |pairs|)
    ensures var img1 := EmitPair(img, off, pairs, i, hash);
            && Below(img1) && IsObj(img1, off, |pairs|)
            && img1.next == img.next + StrBytes(pairs[i].name) + Bytes(pairs[i].value)
  {
    PairFrame(img, off, pairs, i, hash);
  }

  lemma {:induction false} HoldsPairsHead(recs: Recs, mpairs: seq<MPair>, pairs: seq<Pair>, i: nat, lo: nat, hash: Name -> nat)
    requires i < |pairs| == |mpairs|
    requires var name := pairs[i].name;
             && mpairs[i] == PairRef(pairs[i], lo) && lo in recs && recs[lo] == StrRec(|name|, name)
             && Holds(recs, mpairs[i].value, pairs[i].value, lo + StrBytes(name), hash)
             && HoldsPairs(recs, mpairs, pairs, i + 1, lo + StrBytes(name) + Bytes(pairs[i].value), hash)
    ensures HoldsPairs(recs, mpairs, pairs, i, lo, hash)
  {
  }

  /** What pair `i` wrote is still there when the rest of the object is marshaled. */
  lemma {:induction false} PairSurvives(img: Image, off: nat, pairs: seq<Pair>, i: nat, hash: Name -> nat)
    requires i < |pairs| && Below(img) && IsObj(img, off, |pairs|)
    requires var at := img.next + StrBytes(pairs[i].name);
             Holds(EmitPair(img, off, pairs, i, hash).recs, RefOf(pairs[i].value, at), pairs[i].value, at, hash)
    ensures var img', name := EmitPairs(img, off, pairs, i, hash), pairs[i].name;
            && IsObj(img', off, |pairs|)
            && img'.recs[off].pairs[i] == PairRef(pairs[i], img.next)
            && img.next in img'.recs && img'.recs[img.next] == StrRec(|name|, name)
            && Holds(img'.recs, RefOf(pairs[i].value, img.next + StrBytes(name)), pairs[i].value,
                     img.next + StrBytes(name), hash)
  {
    PairFrame(img, off, pairs, i, hash);
    var img1 := EmitPair(img, off, pairs, i, hash);
    PairsFrame(img1, off, pairs, i + 1, hash);
    var img2 := EmitPairs(img1, off, pairs, i + 1, hash);
    assert img2.recs[off].pairs[i] == img2.recs[off].pairs[..i + 1][i] == PairRef(pairs[i], img.next);
    var at := img.next + StrBytes(pairs[i].name);
    HoldsFrame(img1.recs, img2.recs, RefOf(pairs[i].value, at), pairs[i].value, at, hash);
  }

  lemma {:induction false} PairHolds(img: Image, off: nat, pairs: seq<Pair>, i: nat, hash: Name -> nat)
    requires i < |pairs| && Below(img) && IsObj(img, off, |pairs|) && Bytes(pairs[i].value) < LIMIT
    ensures var at := img.next + StrBytes(pairs[i].name);
            Holds(EmitPair(img, off, pairs, i, hash).recs, RefOf(pairs[i].value, at), pairs[i].value, at, hash)
    decreases pairs, |pairs| - i, 0
  {
    PutPairFrame(img, off, |pairs|, i, pairs[i].name, hash);
    EmitHolds(PutPair(img, off, |pairs|, i, pairs[i].name, hash), PairValue(off, i), pairs[i].value, hash);
  }
}
