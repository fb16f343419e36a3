/** From documents to the ordered listing of their keys: indexing and the cursor together. */
module ArtDocuments {
  import opened ArtNodes
  import opened ArtTree
  import opened ArtPaths
  import opened ArtInsert
  import opened ArtSchema
  import opened ArtDepth
  import opened ArtIndexKey
  import opened ArtOrder
  import opened ArtCursor

  /** What the index gets from a document: its key fields and its suffix. */
  datatype Doc = Doc(fields: seq<Field>, suffix: seq<Byte>)

  /** The complete key of an added document. */
  ghost predicate KeyOfAdded(docs: seq<Doc>, added: seq<bool>, key: Path) {
    exists i: nat :: i < |added| && i < |docs| && added[i] && key == FullKey(docs[i].fields, docs[i].suffix)
  }

  /** The keys of the tree are those of the documents added. */
  ghost predicate Indexed(s: Art, g: Labels, docs: seq<Doc>, added: seq<bool>) {
    forall key :: HasKey(s, g, key) <==> KeyOfAdded(docs, added, key)
  }

  lemma {:induction false} OneMoreIndexed(
      s: Art, g: Labels, s': Art, g': Labels, docs: seq<Doc>, added: seq<bool>, ok: bool)
    requires Indexed(s, g, docs, added) && |added| < |docs|
    requires var d := docs[|added|];
             if ok then OneMoreKey(s, g, s', g', FullKey(d.fields, d.suffix)) else SameKeys(s, g, s', g')
    ensures Indexed(s', g', docs, added + [ok])
  {
    hide HasKey, FullKey;
    var n := |added|;
    forall key ensures HasKey(s', g', key) <==> KeyOfAdded(docs, added + [ok], key) {
      assert HasKey(s, g, key) <==> KeyOfAdded(docs, added, key);
      if KeyOfAdded(docs, added, key) {
        var i: nat :| i < |added| && added[i] && key == FullKey(docs[i].fields, docs[i].suffix);
        assert (added + [ok])[i];
      }
      if ok && key == FullKey(docs[n].fields, docs[n].suffix) { assert (added + [ok])[n]; }
      if KeyOfAdded(docs, added + [ok], key) {
        var i: nat :| i < n + 1 && (added + [ok])[i] && key == FullKey(docs[i].fields, docs[i].suffix);
        if i < n { assert added[i]; }
      }
    }
  }

  /** No complete key has more than `m` steps: key bytes, field ends, the suffix node and the suffix. */
  ghost predicate KeysUpTo(docs: seq<Doc>, m: nat) {
    forall i | 0 <= i < |docs| :: |FullKey(docs[i].fields, docs[i].suffix)| <= m
  }

  /** No label is longer than the complete keys of documents account for, added or not. */
  ghost predicate Measured(g: Labels, docs: seq<Doc>, n: nat)
    requires n <= |docs|
  {
    forall m: nat | KeysUpTo(docs[..n], m) :: Bounded(g, m)
  }

  lemma {:induction false} OneMoreMeasured(g: Labels, g': Labels, docs: seq<Doc>, n: nat)
    requires n < |docs| && Measured(g, docs, n) && Within(g, g', |FullKey(docs[n].fields, docs[n].suffix)|)
    ensures Measured(g', docs, n + 1)
  {
    hide Bounded, FullKey;
    forall m: nat | KeysUpTo(docs[..n + 1], m) ensures Bounded(g', m) {
      assert docs[..n + 1][n] == docs[n];
      assert forall i | 0 <= i < n :: docs[..n][i] == docs[..n + 1][i];
      assert KeysUpTo(docs[..n], m);
    }
  }

  /** How long the complete key of a document is. */
  lemma {:induction false} KeyLength(d: Doc)
    ensures |FullKey(d.fields, d.suffix)| == FieldBytes(d.fields) + |d.fields| + 1 + |d.suffix|
  {
    FieldsLengthIs(d.fields);
  }

  /** The bytes of the fields that fit. */
  function FieldBytes(fields: seq<Field>): nat {
    if fields == [] then 0 else
      FieldBytes(fields[..|fields| - 1]) + if fields[|fields| - 1].Key? then |fields[|fields| - 1].bytes| else 0
  }

  lemma {:induction false} FieldsLengthIs(fields: seq<Field>)
    ensures |FieldsPath(fields)| == FieldBytes(fields) + |fields|
  {
    if fields != [] { FieldsLengthIs(fields[..|fields| - 1]); }
  }

  /** With keys of up to 2046 steps the cursor stack never runs full. */
  lemma {:induction false} MeasuredShallow(s: Art, g: Labels, docs: seq<Doc>, k: nat, w: nat)
    requires Sound(s, g, k, w) && Measured(g, docs, |docs|) && KeysUpTo(docs, 2046)
    ensures Shallow(g)
  {
    hide Valid, Schema, Erase, FullKey, EndsInPass;
    assert docs[..|docs|] == docs;
    assert Bounded(g, 2046);
    forall l | l in g.path ensures |g.path[l]| < MAX_CURSOR - 1 { LabelLength(s, g, k, w, l); }
  }

  /** Indexes the documents one after the other, all with `k` fields and suffixes of `w` bytes. */
  method IndexDocuments(docs: seq<Doc>, ghost k: nat, ghost w: nat) returns (index: ArtIndex, added: seq<bool>)
    requires 0 < w <= MAX_SPAN && forall d | d in docs :: |d.fields| == k && |d.suffix| == w
    ensures fresh(index) && index.Ok() && Sound(index.S(), index.g, k, w)
    ensures |added| == |docs| && Indexed(index.S(), index.g, docs, added) && Measured(index.g, docs, |docs|)
    ensures forall i | 0 <= i < |docs| && AllFit(docs[i].fields)
                       && (forall f | f in docs[i].fields :: |f.bytes| <= MAX_SPAN) :: added[i]
  {
    hide Sound, HasKey, FullKey, OneMoreKey, SameKeys, Indexed, Measured, Within;
    index := new ArtIndex();
    added := [];
    EmptyIndex(k, w);
    NothingIndexed(index.S(), index.g, docs);
    NothingMeasured(index.g, docs);
    var n := 0;
    while n < |docs|
      invariant 0 <= n == |added| <= |docs| && fresh(index) && index.Ok() && Sound(index.S(), index.g, k, w)
      invariant Indexed(index.S(), index.g, docs, added) && Measured(index.g, docs, n)
      invariant forall i | 0 <= i < n && AllFit(docs[i].fields)
                           && (forall f | f in docs[i].fields :: |f.bytes| <= MAX_SPAN) :: added[i]
    {
      ghost var s0, g0 := index.S(), index.g;
      assert docs[n] in docs;
      var ok := IndexKey(index, docs[n].fields, docs[n].suffix);
      OneMoreIndexed(s0, g0, index.S(), index.g, docs, added, ok);
      OneMoreMeasured(g0, index.g, docs, n);
      added := added + [ok];
      n := n + 1;
    }
  }

  lemma {:induction false} NothingIndexed(s: Art, g: Labels, docs: seq<Doc>)
    requires forall key :: !HasKey(s, g, key)
    ensures Indexed(s, g, docs, [])
  {
  }

  lemma {:induction false} NothingMeasured(g: Labels, docs: seq<Doc>)
    requires g.path == map[Root := []]
    ensures Measured(g, docs, 0)
  {
  }

  /** The steps past end nodes add no bytes. */
  lemma {:induction false} ErasedBytes(p: Path)
    ensures KeyBytes(Erase(p)) == KeyBytes(p)
  {
    if p != [] {
      var n := |p| - 1;
      ErasedBytes(p[..n]);
      var q := Erase(p[..n]) + [p[n]];
      assert q[..|q| - 1] == Erase(p[..n]);
      assert Erase(p) == if p[n] == Pass then Erase(p[..n]) else q;
    }
  }

  /** The labels of the listed slots, without the steps past end nodes. */
  ghost function PathsOf(g: Labels, list: seq<Loc>): (r: seq<Path>)
    requires forall l | l in list :: l in g.path
    ensures |r| == |list| && forall i | 0 <= i < |list| :: r[i] == Erase(g.path[list[i]])
  {
    seq(|list|, i requires 0 <= i < |list| => Erase(g.path[list[i]]))
  }

  /** The complete keys of the documents added, in strictly increasing order; `keys` are the bytes of the first ones. */
  ghost predicate OrderedKeys(docs: seq<Doc>, added: seq<bool>, paths: seq<Path>, keys: seq<seq<Byte>>) {
    && |keys| <= |paths| && (forall i | 0 <= i < |keys| :: keys[i] == KeyBytes(paths[i]))
    && (forall i, j | 0 <= i < j < |paths| :: Less(paths[i], paths[j]))
    && forall p :: p in paths <==> KeyOfAdded(docs, added, p)
  }

  lemma {:induction false} ListedInOrder(
      s: Art, g: Labels, docs: seq<Doc>, added: seq<bool>, keys: seq<seq<Byte>>, k: nat, w: nat) returns (paths: seq<Path>)
    requires Sound(s, g, k, w) && Indexed(s, g, docs, added) && Root in g.path && |keys| <= |Rest(s, g, Root, -1)|
    requires KeysOf(g, Rest(s, g, Root, -1)[..|keys|], keys)
    ensures OrderedKeys(docs, added, paths, keys) && |paths| == |Rest(s, g, Root, -1)|
  {
    hide Valid, Schema, Erase, KeyBytes, HasKey, KeyOfAdded, Rest, Less;
    ListsAllKeys(s, g, k, w);
    var list := Rest(s, g, Root, -1);
    paths := PathsOf(g, list);
    forall i | 0 <= i < |keys| ensures keys[i] == KeyBytes(paths[i]) {
      assert list[..|keys|][i] == list[i];
      ErasedBytes(g.path[list[i]]);
    }
    forall i, j | 0 <= i < j < |paths| ensures Less(paths[i], paths[j]) { assert Before(g, list[i], list[j]); }
    forall p ensures p in paths <==> KeyOfAdded(docs, added, p) {
      assert HasKey(s, g, p) <==> Listed(g, list, p);
      if Listed(g, list, p) {
        var r :| r in list && Erase(g.path[r]) == p;
        var i :| 0 <= i < |list| && list[i] == r;
        assert paths[i] == p;
      }
      if p in paths {
        var i :| 0 <= i < |paths| && paths[i] == p;
        assert list[i] in list;
      }
    }
  }

  lemma {:induction false} WholeList(g: Labels, list: seq<Loc>, keys: seq<seq<Byte>>)
    requires KeysOf(g, list, keys)
    ensures |keys| == |list|
  {
  }

  /**
   Indexing documents and listing the index gives the complete keys of the documents that were
   added, each once, in strictly increasing order. The cursor stack can run full only when the
   complete key of some document has more than 2046 steps.
   */
  method ListDocuments(docs: seq<Doc>, ghost k: nat, ghost w: nat)
      returns (added: seq<bool>, keys: seq<seq<Byte>>, whole: bool, ghost paths: seq<Path>)
    requires 0 < w <= MAX_SPAN && forall d | d in docs :: |d.fields| == k && |d.suffix| == w
    ensures |added| == |docs| && OrderedKeys(docs, added, paths, keys) && (whole ==> |keys| == |paths|)
    ensures KeysUpTo(docs, 2046) ==> whole
    ensures forall i | 0 <= i < |docs| && AllFit(docs[i].fields)
                       && (forall f | f in docs[i].fields :: |f.bytes| <= MAX_SPAN) :: added[i]
  {
    hide Sound, OrderedKeys, Indexed, KeysOf, Rest, Measured, KeysUpTo, Shallow;
    var index;
    index, added := IndexDocuments(docs, k, w);
    if KeysUpTo(docs, 2046) { MeasuredShallow(index.S(), index.g, docs, k, w); }
    keys, whole := AllKeys(index);
    paths := ListedInOrder(index.S(), index.g, docs, added, keys, k, w);
    if whole { WholeList(index.g, Rest(index.S(), index.g, Root, -1), keys); }
  }
}
