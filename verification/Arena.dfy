/**
 The arena: objects grow up and document id slots grow down inside segments that double in
 size. Sizes are in bytes, object offsets in units of 8 bytes.
 */
module Arena {

  const MIN_SEGSIZE := 131072
  const MAX_SEGSIZE := 32 * 1024 * 1024 * 1024
  const SEG_HEADER := 24      // bytes of a segment's meta-data
  const BATCH := 64           // document ids per frame
  const WORD := 0x1_0000_0000_0000_0000 // 64-bit arithmetic wraps around here

  datatype Seg = Seg(off: nat, size: nat, nextDoc: nat)

  /** Bytes `lo` up to `hi` of a segment. */
  datatype Region = Region(seg: nat, lo: nat, hi: nat)

  predicate Apart(a: Region, b: Region) { a.seg != b.seg || a.hi <= b.lo || b.hi <= a.lo }

  function Up8(n: nat): (r: nat)
    ensures n <= r < n + 8 && r % 8 == 0
  {
    (n + 7) / 8 * 8
  }

  /** The id slot with index `i` (from 1) of a segment, counted down from its end. */
  function IdSlot(segs: seq<Seg>, s: nat, i: nat, idSize: nat): Region
    requires s < |segs| && 0 < i && i * idSize <= segs[s].size && (i - 1) * idSize <= segs[s].size
  {
    Region(s, segs[s].size - i * idSize, segs[s].size - (i - 1) * idSize)
  }

  /** Objects below `top`, ids above it: the segment holds both. */
  predicate SegHolds(seg: Seg, top: nat, idSize: nat) {
    top + seg.nextDoc * idSize <= seg.size <= MAX_SEGSIZE
  }

  /** Every segment holds its objects and ids, and follows the one before in the file. */
  ghost predicate SegsOk(segs: seq<Seg>, tops: seq<nat>, idSize: nat) {
    && |segs| == |tops| > 0
    && (forall s | 0 <= s < |segs| :: SegHolds(segs[s], tops[s], idSize))
    && forall s | 0 <= s < |segs| - 1 :: segs[s + 1].off == segs[s].off + segs[s].size
  }

  /** All objects lie inside their segment, below its top, and apart from each other. */
  ghost predicate RegionsOk(regions: seq<Region>, tops: seq<nat>) {
    && (forall i | 0 <= i < |regions| :: regions[i].seg < |tops| && regions[i].lo <= regions[i].hi <= tops[regions[i].seg])
    && forall i, j | 0 <= i < j < |regions| :: Apart(regions[i], regions[j])
  }

  // ---------- what the invariant means ----------

  lemma {:induction false} FewerIds(i: nat, n: nat, idSize: nat)
    requires i <= n
    ensures i * idSize <= n * idSize
  {
    if i < n {
      FewerIds(i, n - 1, idSize);
      assert n * idSize == (n - 1) * idSize + idSize;
    }
  }

  /** No object overlaps an id slot, and id slots lie apart, inside their segment. */
  lemma {:induction false} IdsApart(
      segs: seq<Seg>, tops: seq<nat>, regions: seq<Region>, idSize: nat, s: nat, i: nat, j: nat, k: nat)
    requires SegsOk(segs, tops, idSize) && RegionsOk(regions, tops)
    requires s < |segs| && 0 < i < j <= segs[s].nextDoc && k < |regions|
    ensures i * idSize <= segs[s].size && (i - 1) * idSize <= segs[s].size
    ensures j * idSize <= segs[s].size && (j - 1) * idSize <= segs[s].size
    ensures Apart(IdSlot(segs, s, i, idSize), IdSlot(segs, s, j, idSize))
    ensures Apart(regions[k], IdSlot(segs, s, i, idSize)) && Apart(regions[k], IdSlot(segs, s, j, idSize))
  {
    assert SegHolds(segs[s], tops[s], idSize);
    FewerIds(j, segs[s].nextDoc, idSize);
    FewerIds(j - 1, j, idSize);
    FewerIds(i, j - 1, idSize);
    FewerIds(i - 1, i, idSize);
  }

  /** Where a segment lies in the file. */
  function FileRange(seg: Seg): Region { Region(0, seg.off, seg.off + seg.size) }

  /** Segments do not overlap in the file. */
  lemma {:induction false} SegmentsApart(segs: seq<Seg>, tops: seq<nat>, idSize: nat, s: nat, t: nat)
    requires SegsOk(segs, tops, idSize) && s < t < |segs|
    ensures segs[s].off + segs[s].size <= segs[t].off && Apart(FileRange(segs[s]), FileRange(segs[t]))
    decreases t
  {
    assert segs[t - 1 + 1].off == segs[t - 1].off + segs[t - 1].size;
    if s < t - 1 { SegmentsApart(segs, tops, idSize, s, t - 1); }
  }

  // ---------- the steps ----------

  /** An object on top of the last segment. */
  lemma {:induction false} ObjectAdded(segs: seq<Seg>, tops: seq<nat>, regions: seq<Region>, idSize: nat, len: nat)
    requires SegsOk(segs, tops, idSize) && RegionsOk(regions, tops)
    requires var n := |segs| - 1; SegHolds(segs[n], tops[n] + len, idSize)
    ensures var n := |segs| - 1;
            var tops' := tops[n := tops[n] + len];
            SegsOk(segs, tops', idSize) && RegionsOk(regions + [Region(n, tops[n], tops[n] + len)], tops')
  {
  }

  /** A new segment of enough bytes has room for an object above its meta-data. */
  lemma {:induction false} LastHolds(segs: seq<Seg>, tops: seq<nat>, idSize: nat, len: nat)
    requires SegsOk(segs, tops, idSize)
    requires len == 0 || var last := segs[|segs| - 1]; tops[|segs| - 1] + len <= last.size - last.nextDoc * idSize
    ensures SegHolds(segs[|segs| - 1], tops[|segs| - 1] + len, idSize)
  {
    assert SegHolds(segs[|segs| - 1], tops[|segs| - 1], idSize);
  }

  /** A new segment after the last one. */
  lemma {:induction false} SegmentAdded(segs: seq<Seg>, tops: seq<nat>, regions: seq<Region>, idSize: nat, seg: Seg)
    requires SegsOk(segs, tops, idSize) && RegionsOk(regions, tops) && SegHolds(seg, 0, idSize)
    requires var last := segs[|segs| - 1]; seg.off == last.off + last.size
    ensures SegsOk(segs + [seg], tops + [0], idSize) && RegionsOk(regions, tops + [0])
  {
  }

  /** More ids in the last segment. */
  lemma {:induction false} IdsAdded(segs: seq<Seg>, tops: seq<nat>, regions: seq<Region>, idSize: nat, more: nat)
    requires SegsOk(segs, tops, idSize) && RegionsOk(regions, tops)
    ensures var n := |segs| - 1;
            var seg := segs[n].(nextDoc := segs[n].nextDoc + more);
            SegsOk(segs[n := seg], tops, idSize) <==> SegHolds(seg, tops[n], idSize)
  {
    var n := |segs| - 1;
    var seg := segs[n].(nextDoc := segs[n].nextDoc + more);
    assert segs[n := seg][n] == seg;
  }

  // ---------- a batch of ids and the wrap-around of its test ----------

  /** initDocIdFrame's test whether the batch goes into the current segment, in 64-bit arithmetic. */
  predicate StaysHere(seg: Seg, top: nat, idSize: nat)
    requires seg.nextDoc * idSize <= seg.size
  {
    top <= (seg.size - seg.nextDoc * idSize - BATCH * idSize) % WORD
  }

  /**
   The test keeps the ids off the objects exactly when a batch fits between the segment's start
   and the ids it has; otherwise the difference wraps around and the batch always stays.
   */
  lemma {:induction false} BatchExactly(seg: Seg, top: nat, idSize: nat)
    requires SegHolds(seg, top, idSize) && idSize < 0x1_0000_0000
    ensures seg.nextDoc * idSize <= seg.size
    ensures (StaysHere(seg, top, idSize) ==> SegHolds(seg.(nextDoc := seg.nextDoc + BATCH), top, idSize))
       <==> BATCH * idSize <= seg.size - seg.nextDoc * idSize
  {
    var room, need := seg.size - seg.nextDoc * idSize, BATCH * idSize;
    assert (seg.nextDoc + BATCH) * idSize == seg.nextDoc * idSize + need;
    if need <= room {
      assert (room - need) % WORD == room - need;
    } else {
      assert (room - need) % WORD == room - need + WORD;
    }
  }

  /** A segment is the smallest doubling of the last one's size that holds `min` bytes, up to the limit. */
  predicate Grown(last: nat, size: nat, min: nat) {
    && min <= size <= MAX_SEGSIZE
    && (size == MAX_SEGSIZE || (2 * last <= size && MIN_SEGSIZE <= size))
    && (size == MAX_SEGSIZE || size == 2 * last || size == MIN_SEGSIZE || size < 2 * min)
  }

  class DbArena {
    var segs: seq<Seg>
    var nextOffset: nat // of the last segment, in units of 8 bytes
    var idSize: nat
    ghost var tops: seq<nat>        // bytes used by objects, segment by segment
    ghost var regions: seq<Region>  // all objects so far

    ghost predicate Ok()
      reads this
    {
      |segs| == |tops| > 0 && SegsOk(segs, tops, idSize) && RegionsOk(regions, tops) && tops[|tops| - 1] == nextOffset * 8 && idSize < 0x1_0000_0000
    }

    /** createMap: segment zero, with the arena's own data below the first object. */
    constructor (baseSize: nat, initSize: nat, idBytes: nat)
      requires baseSize < 0x1_0000_0000 && initSize < 0x1_0000_0000 && idBytes < 0x1_0000_0000
      ensures Ok() && regions == [] && |segs| == 1 && idSize == idBytes
      ensures baseSize <= nextOffset * 8 < baseSize + 8
      ensures segs[0].off == 0 && segs[0].nextDoc == 0 && segs[0].size % 65536 == 0
      ensures initSize <= segs[0].size && MIN_SEGSIZE <= segs[0].size
    {
      var segOffset := Up8(baseSize);
      var size := initSize;
      if size < segOffset {
        size := segOffset;
      }
      if size < MIN_SEGSIZE {
        size := MIN_SEGSIZE;
      }
      size := (size + 65535) / 65536 * 65536;
      segs := [Seg(0, size, 0)];
      nextOffset := segOffset / 8;
      idSize := idBytes;
      tops := [segOffset];
      regions := [];
    }

    /** newSeg: a segment of twice the last size, doubled again until it is large enough. */
    method NewSeg(minSize: nat)
      requires Ok() && minSize + SEG_HEADER < 0x1_0000_0000
      modifies this`segs, this`nextOffset, this`tops
      ensures Ok() && |segs| == |old(segs)| + 1 && segs[..|old(segs)|] == old(segs) && tops[..|old(tops)|] == old(tops)
      ensures nextOffset == 0 && segs[|segs| - 1].nextDoc == 0
      ensures Grown(old(segs[|segs| - 1].size), segs[|segs| - 1].size, minSize + SEG_HEADER)
    {
      var last := segs[|segs| - 1];
      assert SegHolds(last, tops[|segs| - 1], idSize);
      var min := minSize + SEG_HEADER;
      var size := last.size;
      if size < MIN_SEGSIZE / 2 {
        size := MIN_SEGSIZE / 2;
      }
      size := size * 2;
      while size < min
        invariant MIN_SEGSIZE <= size && 2 * last.size <= size
        invariant size == 2 * last.size || size == MIN_SEGSIZE || size < 2 * min
        decreases min - size
      {
        size := size * 2;
      }
      if size > MAX_SEGSIZE {
        size := MAX_SEGSIZE;
      }
      var seg := Seg(last.off + last.size, size, 0);
      SegmentAdded(segs, tops, regions, idSize, seg);
      segs := segs + [seg];
      tops := tops + [0];
      nextOffset := 0;
    }

    /** allocMap: raw space for an object in the current segment, or in a new one. */
    method AllocMap(bytes: nat) returns (seg: nat, offset: nat)
      requires Ok() && bytes + 8 + SEG_HEADER < 0x1_0000_0000
      modifies this
      ensures Ok() && seg == |segs| - 1
      ensures var last := old(segs[|segs| - 1]);
              if old(nextOffset) * 8 + Up8(bytes) <= last.size - last.nextDoc * old(idSize)
              then segs == old(segs) && offset == old(nextOffset)
              else |segs| == |old(segs)| + 1 && offset == 0 && Grown(last.size, segs[seg].size, Up8(bytes) + SEG_HEADER)
      ensures nextOffset * 8 == offset * 8 + Up8(bytes) && idSize == old(idSize)
      ensures regions == old(regions) + [Region(seg, offset * 8, offset * 8 + Up8(bytes))]
      ensures forall s | 0 <= s < |old(segs)| :: segs[s] == old(segs)[s]
    {
      hide SegsOk, RegionsOk, SegHolds, Apart, Up8, Grown;
      var size := Up8(bytes);
      var last := segs[|segs| - 1];
      var max := last.size - last.nextDoc * idSize;
      if nextOffset * 8 + size > max {
        NewSeg(size);
      }
      seg, offset := |segs| - 1, nextOffset;
      LastHolds(segs, tops, idSize, size);
      ObjectAdded(segs, tops, regions, idSize, size);
      regions := regions + [Region(seg, offset * 8, offset * 8 + size)];
      nextOffset := nextOffset + size / 8;
      tops := tops[seg := tops[seg] + size];
    }

    /** The id batch of initDocIdFrame: the ids with indexes `last - 63` up to `last` of the segment. */
    method AllocDocIds() returns (seg: nat, last: nat)
      requires Ok() && BATCH * idSize + SEG_HEADER < 0x1_0000_0000
      modifies this`segs, this`nextOffset, this`tops
      ensures |segs| == |old(segs)| <==>
                old(nextOffset) * 8 <= (old(segs[|segs| - 1].size) - old(segs[|segs| - 1].nextDoc * idSize) - BATCH * idSize) % WORD
      ensures seg == |segs| - 1 && last == segs[seg].nextDoc >= BATCH
      ensures seg < |old(segs)| ==> last == old(segs)[seg].nextDoc + BATCH
      ensures seg >= |old(segs)| ==> last == BATCH
      ensures Ok() <==> BATCH * idSize <= old(segs[|segs| - 1].size) - old(segs[|segs| - 1].nextDoc * idSize)
    {
      hide SegsOk, RegionsOk, SegHolds, Apart;
      var here := segs[|segs| - 1];
      LastHolds(segs, tops, idSize, 0);
      BatchExactly(here, tops[|segs| - 1], idSize);
      var max := (here.size - here.nextDoc * idSize - BATCH * idSize) % WORD;
      if nextOffset * 8 > max {
        NewSeg(BATCH * idSize);
        IdsFit(segs[|segs| - 1], idSize);
      }
      seg := |segs| - 1;
      IdsAdded(segs, tops, regions, idSize, BATCH);
      segs := segs[seg := segs[seg].(nextDoc := segs[seg].nextDoc + BATCH)];
      last := segs[seg].nextDoc;
    }
  }

  lemma {:induction false} IdsFit(seg: Seg, idSize: nat)
    requires seg.nextDoc == 0 && BATCH * idSize <= seg.size <= MAX_SEGSIZE
    ensures SegHolds(seg.(nextDoc := seg.nextDoc + BATCH), 0, idSize)
  {
  }
}
