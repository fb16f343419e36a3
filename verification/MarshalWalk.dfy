/**
 The two walks of js_marshal.c with their explicit stacks: calcSize, and marshalDoc with the
 place `val` that the next value goes to.
 */
module MarshalWalk {
  import opened Probing
  import opened MarshalImage
  import opened MarshalLayout
  import opened MarshalRegions
  import opened MarshalReading

  const STACK := 64 // entries of obj, idx and item; entry 0 of idx and item is not used

  /** Level d of the walk: the container obj[d - 1] with idx[d] and the offset behind item[d]. */
  datatype RawFrame = Frame(obj: Value, idx: nat, item: nat)

  type Frame = f: RawFrame | f.idx <= Count(f.obj) witness Frame(Imm(0, 0), 0, 0)

  predicate IsContainer(v: Value) { v.Arr? || v.Obj? }

  /** Containers nested in the value, itself included. */
  function Nest(v: Value): nat
    decreases v, 0
  {
    match v
    case Imm(_, _) => 0
    case Str(_, _) => 0
    case Arr(elems) => 1 + NestElems(elems, 0)
    case Obj(pairs) => 1 + NestPairs(pairs, 0)
  }

  function Max(a: nat, b: nat): nat { if a < b then b else a }

  function NestElems(elems: seq<Value>, i: nat): (n: nat)
    requires i <= |elems|
    ensures forall j | i <= j < |elems| :: Nest(elems[j]) <= n
    decreases elems, |elems| - i
  {
    if i == |elems| then 0 else Max(Nest(elems[i]), NestElems(elems, i + 1))
  }

  function NestPairs(pairs: seq<Pair>, i: nat): (n: nat)
    requires i <= |pairs|
    ensures forall j | i <= j < |pairs| :: Nest(pairs[j].value) <= n
    decreases pairs, |pairs| - i
  {
    if i == |pairs| then 0 else Max(Nest(pairs[i].value), NestPairs(pairs, i + 1))
  }

  // ---------- children of the top of the stack ----------

  function Count(v: Value): nat {
    match v
    case Imm(_, _) => 0
    case Str(_, _) => 0
    case Arr(elems) => |elems|
    case Obj(pairs) => |pairs|
  }

  function Child(v: Value, i: nat): (c: Value)
    requires i < Count(v)
    ensures c < v
  {
    match v
    case Arr(elems) => elems[i]
    case Obj(pairs) => pairs[i].value
  }

  lemma {:induction false} ChildNest(v: Value, i: nat)
    requires i < Count(v)
    ensures Nest(Child(v, i)) < Nest(v)
  {
  }

  /** Loop turns the value still needs, as a bound for termination. */
  function Turns(v: Value): nat
    decreases v, 0
  {
    2 + TurnsFrom(v, 0)
  }

  function TurnsFrom(v: Value, i: nat): nat
    requires i <= Count(v)
    decreases v, 0, Count(v) - i
  {
    if i == Count(v) then 0 else Turns(Child(v, i)) + TurnsFrom(v, i + 1)
  }

  function StackTurns(frames: seq<Frame>): nat
  {
    if frames == [] then 0
    else StackTurns(frames[..|frames| - 1]) + 1 + TurnsFrom(frames[|frames| - 1].obj, frames[|frames| - 1].idx)
  }

  // ---------- calcSize ----------

  function CalcFrom(v: Value, i: nat): nat
    requires i <= Count(v)
  {
    match v
    case Imm(_, _) => 0
    case Str(_, _) => 0
    case Arr(elems) => CalcElems(elems, i)
    case Obj(pairs) => CalcPairs(pairs, i)
  }

  function Header(v: Value): nat {
    match v
    case Arr(elems) => ArrBytes(|elems|)
    case Obj(pairs) => ObjBytes(|pairs|)
    case _ => 0
  }

  /** What the containers on the stack still have to contribute. */
  function CalcPending(frames: seq<Frame>): nat
  {
    if frames == [] then 0
    else
      CalcPending(frames[..|frames| - 1]) + CalcLevel(frames[|frames| - 1])
  }

  function NameBytes(v: Value, i: nat): nat
    requires i < Count(v)
  {
    if v.Obj? then StrBytes(v.pairs[i].name) else 0
  }

  /** What a level of the stack still has to contribute. */
  function CalcLevel(f: Frame): nat {
    if f.idx == 0 then CalcBytes(f.obj) else CalcFrom(f.obj, f.idx)
  }

  lemma {:induction false} CalcTurn(f: Frame)
    requires IsContainer(f.obj)
    ensures f.idx < Count(f.obj) ==>
              CalcLevel(f) == (if f.idx == 0 then Header(f.obj) else 0) + NameBytes(f.obj, f.idx)
                              + CalcBytes(Child(f.obj, f.idx)) + CalcLevel(f.(idx := f.idx + 1))
    ensures f.idx == Count(f.obj) ==> CalcLevel(f) == if f.idx == 0 then Header(f.obj) else 0
  {
    var i := f.idx;
    match f.obj
    case Arr(elems) =>
      assert i < |elems| ==> CalcElems(elems, i) == CalcBytes(elems[i]) + CalcElems(elems, i + 1);
    case Obj(pairs) =>
      assert i < |pairs| ==>
          CalcPairs(pairs, i) == StrBytes(pairs[i].name) + CalcBytes(pairs[i].value) + CalcPairs(pairs, i + 1);
  }

  lemma {:induction false} PushCalc(rest: seq<Frame>, f: Frame)
    ensures CalcPending(rest + [f]) == CalcPending(rest) + CalcLevel(f)
  {
    var fs: seq<Frame> := rest + [f];
    assert fs[|fs| - 1] == f && fs[..|fs| - 1] == rest;
    assert CalcPending(fs) == CalcPending(fs[..|fs| - 1]) + CalcLevel(fs[|fs| - 1]);
  }

  function LevelTurns(f: Frame): nat { 1 + TurnsFrom(f.obj, f.idx) }

  lemma {:induction false} PushTurns(rest: seq<Frame>, f: Frame)
    ensures StackTurns(rest + [f]) == StackTurns(rest) + LevelTurns(f)
    ensures f.idx < Count(f.obj) ==>
              LevelTurns(f) == LevelTurns(f.(idx := f.idx + 1)) + LevelTurns(Frame(Child(f.obj, f.idx), 0, 0)) + 1
  {
    var fs: seq<Frame> := rest + [f];
    assert fs[|fs| - 1] == f && fs[..|fs| - 1] == rest;
    assert StackTurns(fs) == StackTurns(fs[..|fs| - 1]) + LevelTurns(fs[|fs| - 1]);
    if f.idx < Count(f.obj) {
      var c := Child(f.obj, f.idx);
      assert TurnsFrom(f.obj, f.idx) == Turns(c) + TurnsFrom(f.obj, f.idx + 1);
      assert Turns(c) == 2 + TurnsFrom(c, 0);
    }
  }

  /** The next child of the top level, which is popped when it has none left. */
  method NextChild(frames: seq<Frame>) returns (frames': seq<Frame>, more: bool, child: Value, added: nat)
    requires |frames| > 0
    ensures more ==> CalcPending(frames) == added + CalcBytes(child) + CalcPending(frames')
    ensures !more ==> CalcPending(frames) == added + CalcPending(frames')
    ensures more && IsContainer(child) ==> StackTurns(frames) > StackTurns(frames') + LevelTurns(Frame(child, 0, 0))
    ensures StackTurns(frames) > StackTurns(frames')
  {
    var rest, top := frames[..|frames| - 1], frames[|frames| - 1];
    assert frames == rest + [top];
    PushCalc(rest, top);
    PushTurns(rest, top);
    added := 0;
    if !IsContainer(top.obj) {
      return rest, true, top.obj, 0;
    }
    CalcTurn(top);
    if top.idx == 0 {
      added := Header(top.obj);
    }
    if top.idx == Count(top.obj) {
      return rest, false, top.obj, added;
    }
    added := added + NameBytes(top.obj, top.idx);
    var next: Frame := top.(idx := top.idx + 1);
    PushCalc(rest, next);
    PushTurns(rest, next);
    return rest + [next], true, Child(top.obj, top.idx), added;
  }

  method CalcSize(doc: Value) returns (docSize: nat)
    ensures docSize == CalcBytes(doc)
  {
    docSize := 0;
    var frames: seq<Frame> := [Frame(doc, 0, 0)];
    PushCalc([], Frame(doc, 0, 0));
    assert [] + [Frame(doc, 0, 0)] == frames;
    while |frames| > 0
      invariant docSize + CalcPending(frames) == CalcBytes(doc)
      decreases StackTurns(frames)
    {
      var frames', more, child, added := NextChild(frames);
      docSize := docSize + added;
      frames := frames';
      if more {
        match child {
          case Str(kind, bytes) =>
            if kind != KKey {
              docSize := docSize + StrBytes(bytes);
            }
          case Imm(_, _) =>
          case _ =>
            PushCalc(frames, Frame(child, 0, 0));
            PushTurns(frames, Frame(child, 0, 0));
            frames := frames + [Frame(child, 0, 0)];
        }
      }
    }
  }

  // ---------- marshalDoc ----------

  /** The rest of the work on the container at the top of the stack. */
  function EmitTop(img: Image, f: Frame, val: Ptr, hash: Name -> nat): Image {
    if f.idx == 0 then Emit(img, val, f.obj, hash)
    else EmitRest(img, f.item, f.obj, f.idx, hash)
  }

  function EmitRest(img: Image, item: nat, v: Value, i: nat, hash: Name -> nat): Image
    requires i <= Count(v)
  {
    match v
    case Arr(elems) => EmitElems(img, item, elems, i, hash)
    case Obj(pairs) => EmitPairs(img, item, pairs, i, hash)
    case _ => img
  }

  /** The image when the whole stack has been worked off. */
  function Finish(img: Image, frames: seq<Frame>, val: Ptr, hash: Name -> nat): Image
    decreases |frames|
  {
    if |frames| == 0 then img
    else Finish(EmitTop(img, frames[|frames| - 1], val, hash), frames[..|frames| - 1], val, hash)
  }

  /** The header of a container: `item` is set to the current offset and room is reserved. */
  function Open(img: Image, val: Ptr, v: Value): Image
    requires IsContainer(v)
  {
    match v
    case Arr(elems) => OpenArr(img, val, |elems|)
    case Obj(pairs) => OpenObj(img, val, |pairs|)
  }

  function ChildPtr(v: Value, item: nat, i: nat): Ptr
    requires IsContainer(v)
  {
    if v.Arr? then Elem(item, i) else PairValue(item, i)
  }

  /** What a turn stores before it looks at the child: the pair's count, hash entry and name. */
  function Prepare(img: Image, v: Value, item: nat, i: nat, hash: Name -> nat): Image
    requires i < Count(v)
  {
    match v
    case Arr(_) => img
    case Obj(pairs) => PutPair(img, item, |pairs|, i, pairs[i].name, hash)
  }

  lemma {:induction false} EmitSplit(img: Image, val: Ptr, v: Value, hash: Name -> nat)
    requires IsContainer(v)
    ensures Emit(img, val, v, hash) == EmitRest(Open(img, val, v), img.next, v, 0, hash)
  {
  }

  lemma {:induction false} EmitTurn(img: Image, v: Value, item: nat, i: nat, hash: Name -> nat)
    requires IsContainer(v) && i < Count(v)
    ensures var img1 := Emit(Prepare(img, v, item, i, hash), ChildPtr(v, item, i), Child(v, i), hash);
            EmitRest(img, item, v, i, hash) == EmitRest(img1, item, v, i + 1, hash)
  {
    match v
    case Arr(elems) =>
      assert EmitElems(img, item, elems, i, hash)
          == EmitElems(Emit(img, Elem(item, i), elems[i], hash), item, elems, i + 1, hash);
    case Obj(pairs) =>
      assert EmitPairs(img, item, pairs, i, hash) == EmitPairs(EmitPair(img, item, pairs, i, hash), item, pairs, i + 1, hash);
  }

  lemma {:induction false} FinishPush(img: Image, rest: seq<Frame>, f: Frame, val: Ptr, hash: Name -> nat)
    ensures Finish(img, rest + [f], val, hash) == Finish(EmitTop(img, f, val, hash), rest, val, hash)
  {
    var fs: seq<Frame> := rest + [f];
    assert fs[|fs| - 1] == f && fs[..|fs| - 1] == rest;
    assert Finish(img, fs, val, hash)
        == Finish(EmitTop(img, fs[|fs| - 1], val, hash), fs[..|fs| - 1], val, hash);
  }

  // ---------- the stack stays in step with the image ----------

  ghost predicate SameShape(r: Rec, r': Rec) {
    match r
    case StrRec(_, _) => r' == r
    case ArrRec(_, values) => r'.ArrRec? && |r'.values| == |values|
    case ObjRec(_, pairs, table) => r'.ObjRec? && |r'.pairs| == |pairs| && |r'.table| == |table|
  }

  ghost predicate Grown(img: Image, img': Image) {
    && img.next <= img'.next && Below(img')
    && forall o | o in img.recs :: o in img'.recs && SameShape(img.recs[o], img'.recs[o])
  }

  /** The record behind item[d] once the header of the level has been stored. */
  ghost predicate LevelOk(img: Image, f: Frame) {
    match f.obj
    case Arr(elems) => IsArr(img, f.item, |elems|)
    case Obj(pairs) => IsObj(img, f.item, |pairs|)
    case _ => false
  }

  /** Every level below the top has its header stored; the top has, or `val` is a place for it. */
  ghost predicate StackOk(img: Image, frames: seq<Frame>, val: Ptr) {
    && Below(img)
    && (forall k | 0 <= k < |frames| - 1 :: frames[k].idx > 0 && LevelOk(img, frames[k]))
    && (|frames| > 0 ==>
          var top := frames[|frames| - 1];
          if top.idx == 0 then PtrOk(img, val) else LevelOk(img, top))
  }

  lemma {:induction false} GrownKeepsLevel(img: Image, img': Image, f: Frame)
    requires Grown(img, img') && LevelOk(img, f)
    ensures LevelOk(img', f)
  {
  }

  lemma {:induction false} FramedGrown(img: Image, img': Image, p: Ptr, v: Value)
    requires Below(img) && Framed(img, img', p, v)
    ensures Grown(img, img')
  {
  }

  lemma {:induction false} EmitTopGrown(img: Image, f: Frame, val: Ptr, hash: Name -> nat)
    requires Below(img) && if f.idx == 0 then PtrOk(img, val) else LevelOk(img, f)
    ensures Grown(img, EmitTop(img, f, val, hash))
  {
    if f.idx == 0 {
      EmitFrame(img, val, f.obj, hash);
      FramedGrown(img, Emit(img, val, f.obj, hash), val, f.obj);
    } else {
      match f.obj
      case Arr(elems) => ElemsFrame(img, f.item, elems, f.idx, hash);
      case Obj(pairs) => PairsFrame(img, f.item, pairs, f.idx, hash);
    }
  }

  lemma {:induction false} PopOk(img: Image, img': Image, frames: seq<Frame>, val: Ptr, val': Ptr)
    requires StackOk(img, frames, val) && Grown(img, img') && |frames| > 0
    ensures StackOk(img', frames[..|frames| - 1], val')
  {
    var rest := frames[..|frames| - 1];
    forall k | 0 <= k < |rest| ensures rest[k].idx > 0 && LevelOk(img', rest[k]) {
      GrownKeepsLevel(img, img', frames[k]);
    }
  }

  /** Working off the stack never moves the offset back. */
  lemma {:induction false} FinishGrown(img: Image, frames: seq<Frame>, val: Ptr, hash: Name -> nat)
    requires StackOk(img, frames, val)
    ensures img.next <= Finish(img, frames, val, hash).next
    decreases |frames|
  {
    if |frames| > 0 {
      var img' := EmitTop(img, frames[|frames| - 1], val, hash);
      EmitTopGrown(img, frames[|frames| - 1], val, hash);
      PopOk(img, img', frames, val, val);
      FinishGrown(img', frames[..|frames| - 1], val, hash);
    }
  }

  /** Only the newest container may still have to store its header at `val`. */
  ghost predicate Opened(frames: seq<Frame>) {
    forall k | 0 <= k < |frames| :: frames[k].idx > 0
  }

  lemma {:induction false} FinishIgnoresVal(img: Image, frames: seq<Frame>, a: Ptr, b: Ptr, hash: Name -> nat)
    requires Opened(frames)
    ensures Finish(img, frames, a, hash) == Finish(img, frames, b, hash)
    decreases |frames|
  {
    if |frames| > 0 {
      var last := |frames| - 1;
      FinishIgnoresVal(EmitTop(img, frames[last], a, hash), frames[..last], a, b, hash);
    }
  }

  // ---------- one turn of the loop ----------

  /** The header step: stores the header of a container whose first child has not been taken. */
  lemma {:induction false} OpenTurn(img: Image, frames: seq<Frame>, val: Ptr, hash: Name -> nat)
    requires StackOk(img, frames, val) && |frames| > 0
    requires var top := frames[|frames| - 1]; IsContainer(top.obj) && top.idx == 0
    ensures var top := frames[|frames| - 1];
            var img1, top1 := Open(img, val, top.obj), Frame(top.obj, 0, img.next);
            && Grown(img, img1) && LevelOk(img1, top1)
            && Finish(img, frames, val, hash)
            == Finish(EmitRest(img1, img.next, top.obj, 0, hash), frames[..|frames| - 1], val, hash)
  {
    var top := frames[|frames| - 1];
    EmitSplit(img, val, top.obj, hash);
  }
}
