/** What a reader finds in a marshaled image: the tree, its properties, and a clone of it. */
module MarshalReadBack {
  import opened Probing
  import opened ObjectTable
  import opened MarshalImage
  import opened MarshalLayout
  import opened MarshalReading

  // ---------- reading by offsets ----------

  /** Following offsets and stored counts from `mv` gives `v`. */
  ghost predicate ReadsAs(recs: Recs, mv: MVal, v: Value)
    decreases v, 0
  {
    match mv
    case MImm(tag, bits) => v == Imm(tag, bits)
    case MStr(kind, off) =>
      off in recs && recs[off].StrRec? && v == Str(kind, recs[off].bytes)
    case MArr(off) =>
      && off in recs && recs[off].ArrRec? && recs[off].cnt <= |recs[off].values|
      && v.Arr? && |v.elems| == recs[off].cnt
      && forall i | 0 <= i < |v.elems| :: ReadsAs(recs, recs[off].values[i], v.elems[i])
    case MObj(off) =>
      && off in recs && recs[off].ObjRec? && recs[off].cnt <= |recs[off].pairs|
      && v.Obj? && |v.pairs| == recs[off].cnt
      && (forall i | 0 <= i < |v.pairs| :: NameReads(recs, recs[off].pairs[i].name, v.pairs[i].name))
      && forall i | 0 <= i < |v.pairs| :: ReadsAs(recs, recs[off].pairs[i].value, v.pairs[i].value)
  }

  ghost predicate NameReads(recs: Recs, mv: MVal, name: Name) {
    mv.MStr? && mv.off in recs && recs[mv.off].StrRec? && name == recs[mv.off].bytes
  }

  /** A reader gets one tree at most. */
  lemma {:induction false} ReadsOneTree(recs: Recs, mv: MVal, v: Value, w: Value)
    requires ReadsAs(recs, mv, v) && ReadsAs(recs, mv, w)
    ensures v == w
    decreases v
  {
    match mv
    case MImm(_, _) =>
    case MStr(_, _) =>
    case MArr(off) =>
      forall i | 0 <= i < |v.elems| ensures v.elems[i] == w.elems[i] {
        ReadsOneTree(recs, recs[off].values[i], v.elems[i], w.elems[i]);
      }
    case MObj(off) =>
      forall i | 0 <= i < |v.pairs| ensures v.pairs[i] == w.pairs[i] {
        ReadsOneTree(recs, recs[off].pairs[i].value, v.pairs[i].value, w.pairs[i].value);
        assert NameReads(recs, recs[off].pairs[i].name, v.pairs[i].name);
        assert NameReads(recs, recs[off].pairs[i].name, w.pairs[i].name);
      }
  }

  /** The tree with every array emptied: marshalDoc never stores an array's count. */
  function Strip(v: Value): Value
    decreases v, 0
  {
    match v
    case Imm(_, _) => v
    case Str(_, _) => v
    case Arr(_) => Arr([])
    case Obj(pairs) => Obj(StripPairs(pairs, 0))
  }

  function StripPairs(pairs: seq<Pair>, i: nat): (r: seq<Pair>)
    requires i <= |pairs|
    ensures |r| == |pairs| - i
    ensures forall j | 0 <= j < |r| :: r[j].name == pairs[i + j].name
    decreases pairs, |pairs| - i
  {
    if i == |pairs| then []
    else [Pair(pairs[i].name, Strip(pairs[i].value))] + StripPairs(pairs, i + 1)
  }

  lemma {:induction false} StripAt(pairs: seq<Pair>, i: nat, j: nat)
    requires i <= j < |pairs|
    ensures StripPairs(pairs, i)[j - i] == Pair(pairs[j].name, Strip(pairs[j].value))
    decreases j - i
  {
    if i < j { StripAt(pairs, i + 1, j); }
  }

  predicate HasFilledArray(v: Value)
    decreases v, 0
  {
    match v
    case Imm(_, _) => false
    case Str(_, _) => false
    case Arr(elems) => elems != []
    case Obj(pairs) => exists i | 0 <= i < |pairs| :: HasFilledArray(pairs[i].value)
  }

  lemma {:induction false} StripExact(v: Value)
    ensures Strip(v) == v <==> !HasFilledArray(v)
  {
    match v
    case Imm(_, _) =>
    case Str(_, _) =>
    case Arr(_) =>
    case Obj(pairs) =>
      var s := StripPairs(pairs, 0);
      forall i | 0 <= i < |pairs|
        ensures s[i] == Pair(pairs[i].name, Strip(pairs[i].value))
        ensures Strip(pairs[i].value) == pairs[i].value <==> !HasFilledArray(pairs[i].value)
      {
        StripAt(pairs, 0, i);
        StripExact(pairs[i].value);
      }
      if !HasFilledArray(v) {
        assert s == pairs;
      }
  }

  lemma {:induction false} HoldsPairAt(
      recs: Recs, mpairs: seq<MPair>, pairs: seq<Pair>, i: nat, lo: nat, hash: Name -> nat, j: nat) returns (at: nat)
    requires i <= j < |pairs| == |mpairs| && HoldsPairs(recs, mpairs, pairs, i, lo, hash)
    ensures NameReads(recs, mpairs[j].name, pairs[j].name)
    ensures Holds(recs, mpairs[j].value, pairs[j].value, at, hash)
    decreases j - i
  {
    if i == j {
      at := lo + StrBytes(pairs[i].name);
    } else {
      at := HoldsPairAt(recs, mpairs, pairs, i + 1, lo + StrBytes(pairs[i].name) + Bytes(pairs[i].value), hash, j);
    }
  }

  lemma {:induction false} HoldsReads(recs: Recs, mv: MVal, v: Value, lo: nat, hash: Name -> nat)
    requires Holds(recs, mv, v, lo, hash)
    ensures ReadsAs(recs, mv, Strip(v))
    decreases v
  {
    match v
    case Imm(_, _) =>
    case Str(_, _) =>
    case Arr(_) =>
    case Obj(pairs) =>
      var s, mp := StripPairs(pairs, 0), recs[lo].pairs;
      forall i | 0 <= i < |pairs|
        ensures NameReads(recs, mp[i].name, s[i].name) && ReadsAs(recs, mp[i].value, s[i].value)
      {
        StripAt(pairs, 0, i);
        var at := HoldsPairAt(recs, mp, pairs, 0, lo + ObjBytes(|pairs|), hash, i);
        HoldsReads(recs, mp[i].value, pairs[i].value, at, hash);
      }
  }

  ghost function Marshaled(doc: Value, start: nat, hash: Name -> nat): Image {
    Emit(Image(ZERO, map[], start), Root, doc, hash)
  }

  /** Reading a marshaled tree back gives the tree with its arrays emptied. */
  lemma {:induction false} ReadBack(doc: Value, start: nat, hash: Name -> nat)
    requires Bytes(doc) < LIMIT
    ensures var img := Marshaled(doc, start, hash);
            && Holds(img.recs, img.root, doc, start, hash)
            && ReadsAs(img.recs, img.root, Strip(doc))
  {
    var img0 := Image(ZERO, map[], start);
    EmitFrame(img0, Root, doc, hash);
    EmitHolds(img0, Root, doc, hash);
    var img := Marshaled(doc, start, hash);
    HoldsReads(img.recs, img.root, doc, start, hash);
  }

  /** The round trip is the identity exactly for trees without a filled array. */
  lemma {:induction false} RoundTrip(doc: Value, start: nat, hash: Name -> nat)
    requires Bytes(doc) < LIMIT
    ensures var img := Marshaled(doc, start, hash);
            ReadsAs(img.recs, img.root, doc) <==> !HasFilledArray(doc)
  {
    ReadBack(doc, start, hash);
    StripExact(doc);
    var img := Marshaled(doc, start, hash);
    if ReadsAs(img.recs, img.root, doc) {
      ReadsOneTree(img.recs, img.root, doc, Strip(doc));
    }
  }

  // ---------- properties of a marshaled object ----------

  function ReadName(recs: Recs, mv: MVal): Name {
    if mv.MStr? && mv.off in recs && recs[mv.off].StrRec? then recs[mv.off].bytes else []
  }

  function ReadNames(recs: Recs, mpairs: seq<MPair>): (names: seq<Name>)
    ensures |names| == |mpairs|
  {
    seq(|mpairs|, i requires 0 <= i < |mpairs| => ReadName(recs, mpairs[i].name))
  }

  lemma {:induction false} NamesRead(recs: Recs, pairs: seq<Pair>, off: nat, hash: Name -> nat)
    requires Holds(recs, MObj(off), Obj(pairs), off, hash)
    ensures ReadNames(recs, recs[off].pairs) == NamesOf(pairs, |pairs|)
  {
    forall i | 0 <= i < |pairs| ensures ReadName(recs, recs[off].pairs[i].name) == pairs[i].name {
      var _ := HoldsPairAt(recs, recs[off].pairs, pairs, 0, off + ObjBytes(|pairs|), hash, i);
    }
  }

  /** lookupValue on the object marshaled at `off`; its capacity is its count. */
  method LookupMarshaled(recs: Recs, off: nat, name: Name, hash: Name -> nat, ghost pairs: seq<Pair>) returns (r: Probe)
    requires Holds(recs, MObj(off), Obj(pairs), off, hash)
    ensures r.Found? ==> 1 <= r.idx <= |pairs| && pairs[r.idx - 1].name == name
                         && ReadsAs(recs, recs[off].pairs[r.idx - 1].value, Strip(pairs[r.idx - 1].value))
    ensures r.Found? <==> name in NamesOf(pairs, |pairs|)
    ensures r.Overflow? <==> |pairs| == 1 && pairs[0].name != name
  {
    var obj := recs[off];
    if obj.cnt == 0 {
      return Free(0);
    }
    NamesRead(recs, pairs, off, hash);
    r := Lookup(ReadNames(recs, obj.pairs), obj.table, hash, name, 0, true);
    FullExactlyForOne(obj.table, hash, NamesOf(pairs, |pairs|));
    if r.Found? {
      PairReads(recs, pairs, off, hash, r.idx - 1);
    }
  }

  /** A marshaled table has 3n/2 buckets for n pairs: one pair fills it, more leave room. */
  lemma {:induction false} FullExactlyForOne(table: seq<nat>, hash: Name -> nat, names: seq<Name>)
    requires names != [] && |table| == 3 * |names| / 2 && TableOk(table, hash, names)
    ensures HasFree(table) <==> |names| != 1
  {
    if |names| == 1 {
      assert Placed(table, Home(hash, names[0], |table|), 0 + 1);
      var h: nat :| h < |table| && table[h] == 0 + 1 && Reaches(table, Home(hash, names[0], |table|), h);
    } else {
      FreeBucket(table, hash, names);
    }
  }

  lemma {:induction false} PairReads(recs: Recs, pairs: seq<Pair>, off: nat, hash: Name -> nat, i: nat)
    requires Holds(recs, MObj(off), Obj(pairs), off, hash) && i < |pairs|
    ensures ReadsAs(recs, recs[off].pairs[i].value, Strip(pairs[i].value))
  {
    var at := HoldsPairAt(recs, recs[off].pairs, pairs, 0, off + ObjBytes(|pairs|), hash, i);
    HoldsReads(recs, recs[off].pairs[i].value, pairs[i].value, at, hash);
  }

  /** The hash entry that cloneObject stores before the pair counts as part of the vector. */
  lemma {:induction false} CloneEntry(
      cap: nat, table: seq<nat>, hash: Name -> nat, names: seq<Name>, idx: nat, h: nat)
    requires idx < |names| < cap && Allocatable(cap)
    requires TableOk(table, hash, names[..idx]) && h < |table| && table[h] == 0
    requires Reaches(table, Home(hash, names[idx], |table|), h)
    ensures var t := HashStore(table, HashBytes(cap), h, idx + 1);
            |t| == |table| && TableOk(t, hash, names[..idx + 1])
  {
    EntryStored(cap, table, hash, names[..idx], names[idx], h);
    assert names[..idx + 1] == names[..idx] + [names[idx]];
  }

  /** cloneObject: a modifiable object with the same names, in order, and the same value slots. */
  method CloneObject(recs: Recs, off: nat, hash: Name -> nat, ghost pairs: seq<Pair>) returns (o: JsObject<MVal>)
    requires Holds(recs, MObj(off), Obj(pairs), off, hash) && Distinct(NamesOf(pairs, |pairs|))
    requires Allocatable(GrowCapacity(0, 0, |pairs| + |pairs| / 4))
    ensures fresh(o) && o.Valid() && o.hash == hash
    ensures o.names == NamesOf(pairs, |pairs|)
    ensures o.values == seq(|pairs|, i requires 0 <= i < |pairs| => recs[off].pairs[i].value)
  {
    NamesRead(recs, pairs, off, hash);
    var names := ReadNames(recs, recs[off].pairs);
    var cap, table, values := ClonePairs(names, recs[off].pairs, hash);
    o := new JsObject(hash, ZERO);
    o.names, o.values, o.cap, o.table := names, values, cap, table;
  }

  /** The loop of cloneObject over the marshaled pairs. */
  method ClonePairs(names: seq<Name>, mpairs: seq<MPair>, hash: Name -> nat)
    returns (cap: nat, table: seq<nat>, values: seq<MVal>)
    requires |names| == |mpairs| && Allocatable(GrowCapacity(0, 0, |mpairs| + |mpairs| / 4))
    ensures Allocatable(cap) && |names| < cap && |table| == 3 * cap / 2 && TableOk(table, hash, names)
    ensures values == seq(|mpairs|, i requires 0 <= i < |mpairs| => mpairs[i].value)
  {
    var cnt := |mpairs|;
    cap := GrowCapacity(0, 0, cnt + cnt / 4);
    table := seq(3 * cap / 2, _ => 0);
    EmptyTable(3 * cap / 2, hash);
    values := [];
    var idx := 0;
    while idx < cnt
      invariant idx <= cnt == |names| < cap && |table| == 3 * cap / 2
      invariant TableOk(table, hash, names[..idx])
      invariant values == seq(idx, i requires 0 <= i < idx => mpairs[i].value)
    {
      FreeBucket(table, hash, names[..idx]);
      var p := Lookup(names[..idx], table, hash, names[idx], 0, false);
      CloneEntry(cap, table, hash, names, idx, p.h);
      table := HashStore(table, HashBytes(cap), p.h, idx + 1);
      values := values + [mpairs[idx].value];
      idx := idx + 1;
    }
    assert names[..idx] == names;
  }
}
