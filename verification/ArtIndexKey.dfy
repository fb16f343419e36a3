/** Indexing a document: its key fields and suffix become one complete key of the tree. */
module ArtIndexKey {
  import opened ArtNodes
  import opened ArtTree
  import opened ArtPatches
  import opened ArtPaths
  import opened ArtGrowth
  import opened ArtHalts
  import opened ArtInsert
  import opened ArtSplice
  import opened ArtSchema
  import opened ArtDepth

  /** What the key field function makes of a document field, or that it does not fit. */
  datatype Field = Key(bytes: seq<Byte>) | TooLong

  predicate AllFit(fields: seq<Field>) { forall f | f in fields :: f.Key? }

  /** The steps of the key fields, each closed by its field end. */
  function FieldsPath(fields: seq<Field>): Path {
    if fields == [] then [] else
      var f := fields[|fields| - 1];
      FieldsPath(fields[..|fields| - 1]) + (if f.Key? then Bytes(f.bytes) else []) + [Next]
  }

  /** The complete key: the fields, the suffix node, the suffix. */
  function FullKey(fields: seq<Field>, suffix: seq<Byte>): Path {
    FieldsPath(fields) + [Next] + Bytes(suffix)
  }

  /** Where the next field of the key begins, behind `n` fields. */
  ghost predicate FieldBase(g: Labels, base: Loc, fields: seq<Field>, n: nat) {
    && n <= |fields| && base in g.path && Erase(g.path[base]) == FieldsPath(fields[..n])
    && Lev(g.path[base]) == n && !EndsInPass(g.path[base]) && Tail(g.path[base]) == 0
  }

  lemma {:induction false} RootIsBase(s: Art, g: Labels, fields: seq<Field>)
    requires Valid(s, g)
    ensures FieldBase(g, Root, fields, 0)
  {
    assert fields[..0] == [];
  }

  /** Behind the end node at the slot where a field ends, the next field begins. */
  lemma {:induction false} NextBase(
      g: Labels, base: Path, slot: Path, g': Labels, next: Loc, fields: seq<Field>, n: nat)
    requires n < |fields| && fields[n].Key? && Erase(base) == FieldsPath(fields[..n]) && Lev(slot) == n
    requires Erase(slot) == Erase(base) + Bytes(fields[n].bytes)
    requires next in g'.path && g'.path[next] == slot + [Next]
    ensures FieldBase(g', next, fields, n + 1)
  {
    var q := slot + [Next];
    assert q[..|q| - 1] == slot;
    assert fields[..n + 1][..n] == fields[..n];
    assert Erase(q) == Erase(slot) + [Next];
  }

  /** A slot where a field ends is not past an end node. */
  lemma {:induction false} ArrivesNoPass(g: Labels, base: Loc, key: seq<Byte>, l: Loc)
    requires Arrives(g, base, key, l) && !EndsInPass(g.path[base])
    ensures !EndsInPass(g.path[l])
  {
  }

  /** The tree, its labels and the shape of the index in one. */
  ghost predicate Sound(s: Art, g: Labels, k: nat, w: nat) {
    Valid(s, g) && Schema(s, g, k, w)
  }

  /** The empty index holds no key. */
  lemma {:induction false} EmptyIndex(k: nat, w: nat)
    requires w > 0
    ensures var s, g := Art(Unused, map[]), Labels(map[], map[Root := []]);
            Sound(s, g, k, w) && forall key :: !HasKey(s, g, key)
  {
  }

  /** What appending a field gives the index: the slot of the field, and the same keys. */
  ghost predicate FieldDone(
      s: Art, g: Labels, s': Art, g': Labels, base: Loc, key: seq<Byte>, slot: Loc, k: nat, w: nat) {
    && base in g.path && Sound(s', g', k, w) && SameKeys(s, g, s', g')
    && slot in g'.path && !EndsInPass(g'.path[slot]) && Lev(g'.path[slot]) == Lev(g.path[base])
    && Erase(g'.path[slot]) == Erase(g.path[base]) + Bytes(key)
    && (Lev(g.path[base]) == k + 1 ==> Tail(g'.path[slot]) == w)
  }

  lemma {:induction false} AppendedField(
      s: Art, g: Labels, s': Art, g': Labels, base: Loc, key: seq<Byte>, slot: Loc, k: nat, w: nat)
    requires Sound(s, g, k, w) && Appended(s, g, s', g', base, key, slot)
    requires AppendSite(g.path[base], |key|, k, w) && !EndsInPass(g.path[base])
    ensures FieldDone(s, g, s', g', base, key, slot, k, w)
  {
    AppendSchema(s, g, s', g', base, key, slot, k, w);
    TargetShape(s, g, s', g', base, key, slot, k, w);
    AppendKeys(s, g, s', g');
    hide Valid, Preserved, OnTheWay, Schema, SameKeys, Shape, Lev, Tail, Erase;
    ArrivesNoPass(g', base, key, slot);
  }

  lemma {:induction false} SplicedSound(s: Art, g: Labels, at: Loc, e: nat, fld: bool, k: nat, w: nat)
    requires w > 0 && Sound(s, g, k, w) && SpliceOk(s, g, at, e) && SpliceSite(g.path[at], Content(s, at), fld, k)
    ensures var s', g' := Spliced(s, at, e, fld), SplicedLabels(s, g, at, e);
            && Sound(s', g', k, w) && SameKeys(s, g, s', g')
            && In(e, 0) in g'.path && g'.path[In(e, 0)] == g.path[at] + [Next] && Content(s', In(e, 0)) == Unused
            && Within(g, g', |Erase(g.path[at])| + 1)
  {
    hide Within, Erase, SlotShape, Shifted;
    SplicedWithin(s, g, at, e, fld, k, w);
    SpliceValid(s, g, at, e, fld);
    SpliceSchema(s, g, at, e, fld, k, w);
    SpliceKeys(s, g, at, e, fld, k, w);
    SplicedSlots(s, g, at, e, In(e, 0));
    SplicedContent(s, g, at, e, fld, In(e, 0));
  }

  lemma {:induction false} SchemaAt(s: Art, g: Labels, k: nat, w: nat, l: Loc)
    requires Schema(s, g, k, w) && l in g.path
    ensures SlotShape(g.path[l], Content(s, l), k, w)
  {
  }

  lemma {:induction false} BehindEnd(s: Art, g: Labels, l: Loc)
    requires Valid(s, g) && l in g.path && (Content(s, l).RefFld? || Content(s, l).RefSfx?)
    ensures var a := Content(s, l).addr; In(a, 0) in g.path && g.path[In(a, 0)] == g.path[l] + [Next]
  {
    RefOwner(s, g, l);
    var a := Content(s, l).addr;
    assert Refers(Content(s, g.owner[a]), a, s.nodes[a]);
    EndStep(s, g, l);
  }

  lemma {:induction false} SuffixBase(q: Path)
    ensures Lev(q + [Next]) == Lev(q) + 1 && Tail(q + [Next]) == 0 && !EndsInPass(q + [Next])
    ensures Erase(q + [Next]) == Erase(q) + [Next]
  {
    assert (q + [Next])[..|q|] == q;
  }

  lemma {:induction false} SameKeysTrans(s: Art, g: Labels, s1: Art, g1: Labels, s2: Art, g2: Labels)
    requires SameKeys(s, g, s1, g1) && SameKeys(s1, g1, s2, g2)
    ensures SameKeys(s, g, s2, g2)
  {
    hide HasKey;
    forall key ensures HasKey(s2, g2, key) <==> HasKey(s, g, key) {
      assert HasKey(s1, g1, key) <==> HasKey(s, g, key);
      assert HasKey(s2, g2, key) <==> HasKey(s1, g1, key);
    }
  }

  /** The keys of one tree are those of another and one more. */
  ghost predicate OneMoreKey(s: Art, g: Labels, s': Art, g': Labels, key: Path) {
    forall k :: HasKey(s', g', k) <==> HasKey(s, g, k) || k == key
  }

  lemma {:induction false} MarkedSound(
      s0: Art, g0: Labels, s: Art, g: Labels, at: Loc, k: nat, w: nat)
    requires Sound(s, g, k, w) && SameKeys(s0, g0, s, g)
    requires at in g.path && Lev(g.path[at]) == k + 1 && Tail(g.path[at]) == w
    ensures var s' := SetSlot(s, at, KeyEnd); Sound(s', g, k, w) && OneMoreKey(s0, g0, s', g, Erase(g.path[at]))
  {
    hide Valid, HasKey, Schema, SetSlot, Erase, Lev, Tail, SameKeys;
    MarkKeys(s, g, at, k, w);
    assert OneMoreKey(s, g, SetSlot(s, at, KeyEnd), g, Erase(g.path[at]));
    OneMoreTrans(s0, g0, s, g, SetSlot(s, at, KeyEnd), g, Erase(g.path[at]));
  }

  /** Splices an end node into the slot and returns the slot behind it. */
  method Splice(index: ArtIndex, at: Loc, fld: bool, ghost k: nat, ghost w: nat) returns (next: Loc)
    requires index.Ok() && w > 0 && Sound(index.S(), index.g, k, w)
    requires at in index.g.path && SpliceSite(index.g.path[at], Content(index.S(), at), fld, k)
    modifies index
    ensures index.Ok() && Sound(index.S(), index.g, k, w) && SameKeys(old(index.S()), old(index.g), index.S(), index.g)
    ensures next in index.g.path && index.g.path[next] == old(index.g).path[at] + [Next]
    ensures Within(old(index.g), index.g, |Erase(old(index.g).path[at])| + 1)
  {
    hide Valid, Schema, SameKeys, SpliceSite, Within;
    var e := index.nextAddr;
    ghost var s0, g0 := index.S(), index.g;
    SplicedSound(s0, g0, at, e, fld, k, w);
    SplicedEnd(s0, g0, at, e, fld);
    var st := Spliced(index.S(), at, e, fld);
    index.root, index.nodes, index.nextAddr := st.root, st.nodes, e + 1;
    index.g := SplicedLabels(s0, g0, at, e);
    assert index.S() == st;
    next := In(e, 0);
  }

  /** Appends a field, unless it needs a span that is too long; nothing ever stands in its way. */
  method AppendField(index: ArtIndex, base: Loc, key: seq<Byte>, ghost k: nat, ghost w: nat) returns (slot: Loc, long: bool)
    requires index.Ok() && Sound(index.S(), index.g, k, w) && base in index.g.path
    requires AppendSite(index.g.path[base], |key|, k, w) && !EndsInPass(index.g.path[base])
    modifies index
    ensures index.Ok()
    ensures !long ==> FieldDone(old(index.S()), old(index.g), index.S(), index.g, base, key, slot, k, w)
    ensures Within(old(index.g), index.g, |Erase(old(index.g).path[base])| + |key|)
    ensures long <==> old(TooLongSpan(index.S(), index.g, base, key))
    ensures long ==> index.S() == old(index.S()) && index.g == old(index.g)
  {
    hide Valid, Schema, SameKeys, Appended, AppendSite, Blocks, FieldDone, TooLongSpan, Within;
    ghost var s0, g0 := index.S(), index.g;
    slot, long := index.AppendKeyFld(base, key);
    if long {
      WithinSelf(g0, |Erase(g0.path[base])| + |key|);
    } else {
      NothingBlocks(s0, g0, base, key, slot, k, w);
      AppendedWithin(s0, g0, index.S(), index.g, base, key, slot);
      AppendedField(s0, g0, index.S(), index.g, base, key, slot, k, w);
    }
  }

  /** One field of the key: append it, and enter or splice in its field end. */
  method IndexField(index: ArtIndex, base: Loc, fields: seq<Field>, n: nat, ghost w: nat) returns (next: Loc, long: bool)
    requires index.Ok() && w > 0 && Sound(index.S(), index.g, |fields|, w) && n < |fields|
    requires fields[n].Key? && FieldBase(index.g, base, fields, n)
    modifies index
    ensures index.Ok() && Sound(index.S(), index.g, |fields|, w)
    ensures SameKeys(old(index.S()), old(index.g), index.S(), index.g)
    ensures !long ==> FieldBase(index.g, next, fields, n + 1)
    ensures long <==> old(TooLongSpan(index.S(), index.g, base, fields[n].bytes))
    ensures long ==> index.S() == old(index.S()) && index.g == old(index.g)
    ensures Within(old(index.g), index.g, |FieldsPath(fields)|)
  {
    hide Valid, Schema, SameKeys, Lev, Tail, Erase, Shape, TooLongSpan, Within;
    FieldsLength(fields, n);
    ghost var k := |fields|;
    ghost var s0, g0 := index.S(), index.g;
    var slot;
    slot, long := AppendField(index, base, fields[n].bytes, k, w);
    next := slot;
    if long {
      SameKeysSelf(s0, g0);
      WithinSelf(g0, |FieldsPath(fields)|);
      return;
    }
    ghost var s1, g1 := index.S(), index.g;
    SchemaAt(s1, g1, k, w, slot);
    var c := Content(index.S(), slot);
    if c.RefFld? {
      BehindEnd(s1, g1, slot);
      next := In(c.addr, 0);
      WithinSelf(g1, |FieldsPath(fields)|);
    } else {
      next := Splice(index, slot, true, k, w);
      SameKeysTrans(s0, g0, s1, g1, index.S(), index.g);
      WithinMore(g1, index.g, |Erase(g1.path[slot])| + 1, |FieldsPath(fields)|);
    }
    WithinTrans(g0, g1, index.g, |Erase(g0.path[base])| + |fields[n].bytes|, |FieldsPath(fields)|, |FieldsPath(fields)|);
    NextBase(g0, g0.path[base], g1.path[slot], index.g, next, fields, n);
  }

  /** The steps of the first fields are no more than those of all. */
  lemma {:induction false} FieldsLength(fields: seq<Field>, n: nat)
    requires n < |fields|
    ensures |FieldsPath(fields[..n])| + (if fields[n].Key? then |fields[n].bytes| else 0) + 1 <= |FieldsPath(fields)|
  {
    var front := fields[..|fields| - 1];
    if n < |fields| - 1 {
      FieldsLength(front, n);
      assert front[..n] == fields[..n];
    }
  }

  /** The suffix node, the suffix and the end of the key. */
  method IndexSuffix(index: ArtIndex, base: Loc, fields: seq<Field>, suffix: seq<Byte>)
    requires index.Ok() && 0 < |suffix| <= MAX_SPAN && Sound(index.S(), index.g, |fields|, |suffix|)
    requires FieldBase(index.g, base, fields, |fields|)
    modifies index
    ensures index.Ok() && Sound(index.S(), index.g, |fields|, |suffix|)
    ensures OneMoreKey(old(index.S()), old(index.g), index.S(), index.g, FullKey(fields, suffix))
    ensures Within(old(index.g), index.g, |FullKey(fields, suffix)|)
  {
    hide Valid, Schema, SameKeys, Lev, Tail, Erase, Shape, OneMoreKey, Within;
    ghost var k, w := |fields|, |suffix|;
    ghost var s0, g0 := index.S(), index.g;
    SchemaAt(s0, g0, k, w, base);
    assert fields[..k] == fields;
    SuffixBase(g0.path[base]);
    var c := Content(index.S(), base);
    var sfx;
    if c.RefSfx? {
      BehindEnd(s0, g0, base);
      sfx := In(c.addr, 0);
      SameKeysSelf(s0, g0);
      WithinSelf(g0, |FieldsPath(fields)| + 1);
    } else {
      sfx := Splice(index, base, false, k, w);
    }
    ghost var s1, g1 := index.S(), index.g;
    ShortField(s1, g1, sfx, suffix);
    var tail, long := AppendField(index, sfx, suffix, k, w);
    WithinTrans(g0, g1, index.g, |FieldsPath(fields)| + 1, |Erase(g1.path[sfx])| + |suffix|, |FullKey(fields, suffix)|);
    ghost var s2, g2 := index.S(), index.g;
    SameKeysTrans(s0, g0, s1, g1, s2, g2);
    SchemaAt(s2, g2, k, w, tail);
    MarkedSound(s0, g0, s2, g2, tail, k, w);
    var st := SetSlot(index.S(), tail, KeyEnd);
    MarkedNodes(s2, g2, tail);
    index.root, index.nodes := st.root, st.nodes;
    assert index.S() == st;
  }

  lemma {:induction false} SameKeysSelf(s: Art, g: Labels)
    ensures SameKeys(s, g, s, g)
  {
  }

  /** The field behind the first `n` ones needs too long a span. */
  ghost predicate LongAt(s: Art, g: Labels, base: Loc, fields: seq<Field>, n: nat) {
    n < |fields| && fields[n].Key? && FieldBase(g, base, fields, n) && TooLongSpan(s, g, base, fields[n].bytes)
  }

  /** With the fields before it in the tree, field `n` does not fit, or needs too long a span. */
  ghost predicate FailsAt(s: Art, g: Labels, fields: seq<Field>, n: nat) {
    && n < |fields| && (forall i | 0 <= i < n :: fields[i].Key?)
    && (fields[n].TooLong? || exists base :: LongAt(s, g, base, fields, n))
  }

  /**
   artIndexKey: adds the key of a document, field by field. It fails when a field does not fit
   or needs a span that is too long, and then leaves the keys as they were.
   */
  method IndexKey(index: ArtIndex, fields: seq<Field>, suffix: seq<Byte>) returns (ok: bool)
    requires index.Ok() && 0 < |suffix| <= MAX_SPAN && Sound(index.S(), index.g, |fields|, |suffix|)
    modifies index
    ensures index.Ok() && Sound(index.S(), index.g, |fields|, |suffix|) && (ok ==> AllFit(fields))
    ensures ok ==> OneMoreKey(old(index.S()), old(index.g), index.S(), index.g, FullKey(fields, suffix))
    ensures !ok ==> SameKeys(old(index.S()), old(index.g), index.S(), index.g)
    ensures !ok ==> exists n: nat :: FailsAt(index.S(), index.g, fields, n)
    ensures AllFit(fields) && (forall f | f in fields :: |f.bytes| <= MAX_SPAN) ==> ok
    ensures Within(old(index.g), index.g, |FullKey(fields, suffix)|)
  {
    hide Valid, Sound, SameKeys, FieldBase, OneMoreKey, TooLongSpan, Within;
    ghost var s0, g0 := index.S(), index.g;
    ghost var size := |FullKey(fields, suffix)|;
    var base, n := Root, 0;
    RootIsBase(s0, g0, fields);
    WithinSelf(g0, size);
    SameKeysSelf(s0, g0);
    while n < |fields|
      invariant n <= |fields| && forall i | 0 <= i < n :: fields[i].Key?
      invariant index.Ok() && Sound(index.S(), index.g, |fields|, |suffix|) && FieldBase(index.g, base, fields, n)
      invariant SameKeys(s0, g0, index.S(), index.g) && Within(g0, index.g, size)
    {
      assert fields[n] in fields;
      if fields[n].TooLong? {
        assert FailsAt(index.S(), index.g, fields, n);
        return false;
      }
      ghost var s1, g1 := index.S(), index.g;
      var next, long := IndexField(index, base, fields, n, |suffix|);
      SameKeysTrans(s0, g0, s1, g1, index.S(), index.g);
      WithinTrans(g0, g1, index.g, size, |FieldsPath(fields)|, size);
      if long {
        if |fields[n].bytes| <= MAX_SPAN { ShortField(s1, g1, base, fields[n].bytes); }
        assert LongAt(s1, g1, base, fields, n) && FailsAt(index.S(), index.g, fields, n);
        return false;
      }
      base, n := next, n + 1;
    }
    ghost var s1, g1 := index.S(), index.g;
    IndexSuffix(index, base, fields, suffix);
    OneMoreTrans(s0, g0, s1, g1, index.S(), index.g, FullKey(fields, suffix));
    WithinTrans(g0, g1, index.g, size, size, size);
    ok := true;
  }

  lemma {:induction false} OneMoreTrans(s: Art, g: Labels, s1: Art, g1: Labels, s2: Art, g2: Labels, key: Path)
    requires SameKeys(s, g, s1, g1) && OneMoreKey(s1, g1, s2, g2, key)
    ensures OneMoreKey(s, g, s2, g2, key)
  {
    hide HasKey;
    forall k ensures HasKey(s2, g2, k) <==> HasKey(s, g, k) || k == key {
      assert HasKey(s1, g1, k) <==> HasKey(s, g, k);
    }
  }
}
