/** marshalDoc as a walk that writes a buffer in place, and the properties of a whole marshal. */
module MarshalDoc {
  import opened Probing
  import opened MarshalImage
  import opened MarshalLayout
  import opened MarshalRegions
  import opened MarshalReading
  import opened MarshalReadBack
  import opened MarshalWalk
  import opened MarshalBytes

  // ---------- what one turn does to the work left ----------

  lemma {:induction false} ChildTurn(img: Image, rest: seq<Frame>, top: Frame, item: nat, val: Ptr, hash: Name -> nat)
    requires IsContainer(top.obj) && top.idx < Count(top.obj) && Opened(rest)
    ensures var next, ptr := Frame(top.obj, top.idx + 1, item), ChildPtr(top.obj, item, top.idx);
            var img2, child := Prepare(img, top.obj, item, top.idx, hash), Child(top.obj, top.idx);
            Finish(EmitRest(img, item, top.obj, top.idx, hash), rest, val, hash)
            == Finish(Emit(img2, ptr, child, hash), rest + [next], ptr, hash)
  {
    var next, ptr := Frame(top.obj, top.idx + 1, item), ChildPtr(top.obj, item, top.idx);
    var img2, child := Prepare(img, top.obj, item, top.idx, hash), Child(top.obj, top.idx);
    EmitTurn(img, top.obj, item, top.idx, hash);
    var img3 := Emit(img2, ptr, child, hash);
    FinishPush(img3, rest, next, ptr, hash);
    FinishIgnoresVal(EmitRest(img3, item, top.obj, top.idx + 1, hash), rest, val, ptr, hash);
  }

  lemma {:induction false} PrepareOk(img: Image, top: Frame, item: nat, hash: Name -> nat)
    requires Below(img) && IsContainer(top.obj) && top.idx < Count(top.obj)
    requires LevelOk(img, Frame(top.obj, top.idx, item))
    ensures var img2 := Prepare(img, top.obj, item, top.idx, hash);
            && Grown(img, img2) && PtrOk(img2, ChildPtr(top.obj, item, top.idx))
            && LevelOk(img2, Frame(top.obj, top.idx + 1, item))
  {
    match top.obj
    case Arr(_) =>
    case Obj(pairs) => PutPairFrame(img, item, |pairs|, top.idx, pairs[top.idx].name, hash);
  }

  lemma {:induction false} GrownTrans(a: Image, b: Image, c: Image)
    requires Grown(a, b) && Grown(b, c)
    ensures Grown(a, c)
  {
  }

  lemma {:induction false} PushOk(img: Image, rest: seq<Frame>, f: Frame, val: Ptr, val': Ptr)
    requires StackOk(img, rest, val) && Opened(rest)
    requires if f.idx == 0 then PtrOk(img, val') else LevelOk(img, f)
    ensures StackOk(img, rest + [f], val')
  {
  }

  lemma {:induction false} GrownStack(img: Image, img': Image, frames: seq<Frame>, val: Ptr)
    requires StackOk(img, frames, val) && Opened(frames) && Grown(img, img')
    ensures StackOk(img', frames, val)
  {
    forall k | 0 <= k < |frames| ensures LevelOk(img', frames[k]) {
      GrownKeepsLevel(img, img', frames[k]);
    }
  }

  /** Levels never nest deeper than the stacks of the walk allow. */
  ghost predicate DepthOk(frames: seq<Frame>) {
    forall k | 0 <= k < |frames| :: k + Nest(frames[k].obj) < STACK
  }

  /** The walk stands between two turns and still leads to `target`. */
  ghost predicate Going(img: Image, frames: seq<Frame>, val: Ptr, target: Image, hash: Name -> nat) {
    && StackOk(img, frames, val) && DepthOk(frames)
    && (|frames| > 0 && !IsContainer(frames[|frames| - 1].obj) ==> |frames| == 1)
    && Finish(img, frames, val, hash) == target
  }

  /** The header of the top container is stored behind `item`; the rest of the stack is `rest`. */
  ghost predicate Headed(img: Image, rest: seq<Frame>, top: Frame, item: nat, val: Ptr, target: Image, hash: Name -> nat) {
    && StackOk(img, rest, val) && DepthOk(rest + [top]) && Opened(rest) && IsContainer(top.obj)
    && LevelOk(img, Frame(top.obj, top.idx, item))
    && Finish(EmitRest(img, item, top.obj, top.idx, hash), rest, val, hash) == target
  }

  /** A child has been taken and has to go to `val`. */
  ghost predicate Taken(img: Image, frames: seq<Frame>, val: Ptr, child: Value, target: Image, hash: Name -> nat) {
    && StackOk(img, frames, val) && DepthOk(frames) && Opened(frames)
    && PtrOk(img, val) && |frames| + Nest(child) < STACK
    && Finish(Emit(img, val, child, hash), frames, val, hash) == target
  }

  lemma {:induction false} GoingBound(img: Image, frames: seq<Frame>, val: Ptr, target: Image, hash: Name -> nat)
    requires Going(img, frames, val, target, hash)
    ensures img.next <= target.next
  {
    FinishGrown(img, frames, val, hash);
  }

  /** A scalar stands alone on the stack, and no level has taken more than its children. */
  lemma {:induction false} GoingTop(img: Image, rest: seq<Frame>, top: Frame, val: Ptr, target: Image, hash: Name -> nat)
    requires Going(img, rest + [top], val, target, hash)
    ensures !IsContainer(top.obj) ==> rest == []
    ensures IsContainer(top.obj) ==> top.idx <= Count(top.obj)
  {
    assert (rest + [top])[|rest|] == top;
    if IsContainer(top.obj) { HeaderStep(img, rest, top, val, target, hash); }
  }

  function HeaderImage(img: Image, top: Frame, val: Ptr): Image {
    if IsContainer(top.obj) && top.idx == 0 then Open(img, val, top.obj) else img
  }

  function HeaderItem(img: Image, top: Frame): nat {
    if top.idx == 0 then img.next else top.item
  }

  lemma {:induction false} HeaderStep(img: Image, rest: seq<Frame>, top: Frame, val: Ptr, target: Image, hash: Name -> nat)
    requires Going(img, rest + [top], val, target, hash) && IsContainer(top.obj)
    ensures Headed(HeaderImage(img, top, val), rest, top, HeaderItem(img, top), val, target, hash)
  {
    var frames: seq<Frame> := rest + [top];
    assert frames[|frames| - 1] == top && frames[..|frames| - 1] == rest;
    FinishPush(img, rest, top, val, hash);
    if top.idx == 0 {
      OpenTurn(img, frames, val, hash);
    }
    PopOk(img, HeaderImage(img, top, val), frames, val, val);
    assert forall k | 0 <= k < |rest| :: rest[k] == frames[k];
  }

  lemma {:induction false} PopStep(img: Image, rest: seq<Frame>, top: Frame, item: nat, val: Ptr, target: Image, hash: Name -> nat)
    requires Headed(img, rest, top, item, val, target, hash) && top.idx == Count(top.obj)
    ensures Going(img, rest, val, target, hash)
  {
    assert forall k | 0 <= k < |rest| :: rest[k] == (rest + [top])[k];
  }

  lemma {:induction false} TakeStep(img: Image, rest: seq<Frame>, top: Frame, item: nat, val: Ptr, target: Image, hash: Name -> nat)
    requires Headed(img, rest, top, item, val, target, hash) && top.idx < Count(top.obj)
    ensures Taken(Prepare(img, top.obj, item, top.idx, hash), rest + [Frame(top.obj, top.idx + 1, item)],
                  ChildPtr(top.obj, item, top.idx), Child(top.obj, top.idx), target, hash)
  {
    var img2, ptr := Prepare(img, top.obj, item, top.idx, hash), ChildPtr(top.obj, item, top.idx);
    var next: Frame := Frame(top.obj, top.idx + 1, item);
    ChildTurn(img, rest, top, item, val, hash);
    PrepareOk(img, top, item, hash);
    GrownStack(img, img2, rest, val);
    PushOk(img2, rest, next, val, ptr);
    ChildNest(top.obj, top.idx);
    assert (rest + [top])[|rest|] == top;
    assert forall k | 0 <= k < |rest| :: rest[k] == (rest + [top])[k];
  }

  /** A scalar root is its own and only child. */
  lemma {:induction false} RootStep(img: Image, top: Frame, val: Ptr, target: Image, hash: Name -> nat)
    requires Going(img, [top], val, target, hash) && !IsContainer(top.obj)
    ensures Taken(img, [], val, top.obj, target, hash)
  {
    FinishPush(img, [], top, val, hash);
    assert [] + [top] == [top];
    assert [top][0] == top;
  }

  lemma {:induction false} PushStep(img: Image, frames: seq<Frame>, val: Ptr, child: Value, target: Image, hash: Name -> nat)
    requires Taken(img, frames, val, child, target, hash) && IsContainer(child)
    ensures Going(img, frames + [Frame(child, 0, 0)], val, target, hash) && |frames| + 1 < STACK
  {
    FinishPush(img, frames, Frame(child, 0, 0), val, hash);
    PushOk(img, frames, Frame(child, 0, 0), val, val);
  }

  lemma {:induction false} LeafStep(img: Image, frames: seq<Frame>, val: Ptr, child: Value, target: Image, hash: Name -> nat)
    requires Taken(img, frames, val, child, target, hash) && !IsContainer(child)
    ensures Going(Emit(img, val, child, hash), frames, val, target, hash)
  {
    EmitTopGrown(img, Frame(child, 0, 0), val, hash);
    GrownStack(img, Emit(img, val, child, hash), frames, val);
  }

  lemma {:induction false} StartStep(img: Image, doc: Value, hash: Name -> nat)
    requires img.recs == map[] && img.root == ZERO && Nest(doc) < STACK
    ensures Going(img, [Frame(doc, 0, 0)], Root, Marshaled(doc, img.next, hash), hash)
    ensures Marshaled(doc, img.next, hash).next == img.next + Bytes(doc)
  {
    FinishPush(img, [], Frame(doc, 0, 0), Root, hash);
    assert [] + [Frame(doc, 0, 0)] == [Frame(doc, 0, 0)];
    EmitFrame(img, Root, doc, hash);
  }

  class Marshaler {
    const hash: Name -> nat
    var root: MVal
    var recs: map<nat, Rec>
    var offset: nat

    constructor (hash: Name -> nat, start: nat)
      ensures this.hash == hash && Img() == Image(ZERO, map[], start)
    {
      this.hash, root, recs, offset := hash, ZERO, map[], start;
    }

    function Img(): Image
      reads this
    {
      Image(root, recs, offset)
    }

    method Write(img: Image)
      modifies this
      ensures Img() == img
    {
      root, recs, offset := img.root, img.recs, img.next;
    }

    /** Finds the next child of the top level and the place it goes to, or pops the level. */
    method Advance(frames: seq<Frame>, val: Ptr, ghost target: Image)
      returns (frames': seq<Frame>, val': Ptr, more: bool, child: Value)
      requires |frames| > 0 && Going(Img(), frames, val, target, hash)
      modifies this
      ensures if more then Taken(Img(), frames', val', child, target, hash) else Going(Img(), frames', val', target, hash)
      ensures StackTurns(frames) > StackTurns(frames')
      ensures more && IsContainer(child) ==> StackTurns(frames) > StackTurns(frames') + LevelTurns(Frame(child, 0, 0))
    {
      hide Going, Taken, Prepare, HeaderImage, HeaderItem, ChildPtr, Headed, StackTurns;
      var rest, top := frames[..|frames| - 1], frames[|frames| - 1];
      assert frames == rest + [top];
      PushTurns(rest, top);
      GoingTop(Img(), rest, top, val, target, hash);
      if !IsContainer(top.obj) {
        RootStep(Img(), top, val, target, hash);
        return rest, val, true, top.obj;
      }
      HeaderStep(Img(), rest, top, val, target, hash);
      var item := HeaderItem(Img(), top);
      var img1 := HeaderImage(Img(), top, val);
      Write(img1);
      if top.idx == Count(top.obj) {
        PopStep(Img(), rest, top, item, val, target, hash);
        return rest, val, false, top.obj;
      }
      TakeStep(Img(), rest, top, item, val, target, hash);
      var img2 := Prepare(Img(), top.obj, item, top.idx, hash);
      Write(img2);
      var next: Frame := Frame(top.obj, top.idx + 1, item);
      PushTurns(rest, next);
      return rest + [next], ChildPtr(top.obj, item, top.idx), true, Child(top.obj, top.idx);
    }

    /** Stores a child that is not a container. */
    method PutLeaf(val: Ptr, child: Value)
      requires !IsContainer(child)
      modifies this
      ensures Img() == Emit(old(Img()), val, child, hash)
    {
      match child
      case Imm(tag, bits) =>
        var img := Store(Img(), val, MImm(tag, bits));
        Write(img);
      case Str(kind, bytes) =>
        var img := PutStr(Img(), val, kind, bytes);
        Write(img);
    }

    /** The walk; false is the exit of the overflow check. */
    method MarshalDoc(doc: Value, docSize: nat) returns (ok: bool)
      requires recs == map[] && root == ZERO && Nest(doc) < STACK
      modifies this
      ensures ok ==> Img() == Marshaled(doc, old(offset), hash)
      ensures Bytes(doc) <= docSize ==> ok
    {
      var start := offset;
      var val := Root;
      var frames: seq<Frame> := [Frame(doc, 0, 0)];
      ghost var target := Marshaled(doc, start, hash);
      StartStep(Img(), doc, hash);
      while |frames| > 0
        invariant Going(Img(), frames, val, target, hash)
        invariant target.next == start + Bytes(doc)
        decreases StackTurns(frames)
      {
        GoingBound(Img(), frames, val, target, hash);
        if offset - start > docSize {
          return false;
        }
        var more, child;
        frames, val, more, child := Advance(frames, val, target);
        if more {
          if IsContainer(child) {
            PushStep(Img(), frames, val, child, target, hash);
            PushTurns(frames, Frame(child, 0, 0));
            frames := frames + [Frame(child, 0, 0)];
          } else {
            LeafStep(Img(), frames, val, child, target, hash);
            PutLeaf(val, child);
          }
        }
      }
      ok := true;
    }

    /** calcSize followed by marshalDoc, as a document is stored. */
    method MarshalSized(doc: Value) returns (ok: bool, docSize: nat)
      requires recs == map[] && root == ZERO && Nest(doc) < STACK
      modifies this
      ensures docSize == CalcBytes(doc)
      ensures ok ==> Img() == Marshaled(doc, old(offset), hash) && Packed(Img(), old(offset))
      ensures ok && Bytes(doc) < LIMIT ==> BytesRead(Buffer(Img()), root, Strip(doc))
      ensures !HasKey(doc) ==> ok && offset == old(offset) + docSize
      ensures HasKey(doc) && ok ==> offset > old(offset) + docSize
    {
      docSize := CalcSize(doc);
      CalcExact(doc);
      ghost var start := offset;
      EmitFrame(Img(), Root, doc, hash);
      EmitPacked(Img(), Root, doc, hash, start);
      if Bytes(doc) < LIMIT {
        BytesRoundTrip(doc, start, hash);
      }
      ok := MarshalDoc(doc, docSize);
    }
  }
}
