/**
 Open addressing with linear probing: a table of 1-based pair numbers, zero for an empty
 bucket, over a vector of names. Both the in-memory object and its marshaled image use it.
 The hash function is a parameter, so everything here holds for every hash function.
 */
module Probing {

  type Byte = b: int | 0 <= b < 256
  type Name = seq<Byte>

  /** Width in bytes of a table entry for a given capacity. */
  function HashBytes(cap: nat): nat {
    if cap < 255 then 1 else if cap < 65535 then 2 else 4
  }

  /** What a store of `val` into an entry of the given width keeps of it. */
  function Truncated(ent: nat, val: nat): nat {
    if ent == 1 then val % 0x100 else if ent == 2 then val % 0x10000 else val % 0x1_0000_0000
  }

  function HashStore(table: seq<nat>, ent: nat, h: nat, val: nat): seq<nat>
    requires h < |table|
  {
    table[h := Truncated(ent, val)]
  }

  /** Pair numbers up to the capacity survive the entry width chosen for it. */
  lemma {:induction false} WidthSuffices(cap: nat, val: nat)
    requires val <= cap < 0x1_0000_0000
    ensures Truncated(HashBytes(cap), val) == val
  {
  }

  function Home(hash: Name -> nat, name: Name, m: nat): (h: nat)
    requires m > 0
    ensures h < m
  {
    hash(name) % m
  }

  function Wrap(start: nat, d: nat, m: nat): (h: nat)
    requires start < m && d < m
    ensures h < m
  {
    if start + d < m then start + d else start + d - m
  }

  /** The probe from `start` passes only used buckets before it comes to `h`. */
  ghost predicate Reaches(table: seq<nat>, start: nat, h: nat) {
    && start < |table| && h < |table|
    && exists d: nat :: d < |table| && Clear(table, start, d) && h == Wrap(start, d, |table|)
  }

  /** The first `d` buckets from `start` are in use. */
  ghost predicate Clear(table: seq<nat>, start: nat, d: nat)
    requires start < |table|
  {
    d <= |table| && forall e: nat | e < d :: table[Wrap(start, e, |table|)] != 0
  }

  ghost predicate Placed(table: seq<nat>, start: nat, val: nat) {
    exists h: nat :: h < |table| && table[h] == val && Reaches(table, start, h)
  }

  /** Every pair is where its probe finds it, and nothing else is in the table. */
  ghost predicate TableOk(table: seq<nat>, hash: Name -> nat, names: seq<Name>) {
    && |table| > 0
    && (forall h | 0 <= h < |table| :: table[h] <= |names|)
    && (forall h, g | 0 <= h < g < |table| :: table[h] == table[g] ==> table[h] == 0)
    && (forall i | 0 <= i < |names| :: Placed(table, Home(hash, names[i], |table|), i + 1))
  }

  ghost predicate Distinct(names: seq<Name>) {
    forall i, j | 0 <= i < j < |names| :: names[i] != names[j]
  }

  ghost predicate HasFree(table: seq<nat>) {
    exists h :: 0 <= h < |table| && table[h] == 0
  }

  // ---------- facts ----------

  lemma {:induction false} DistinctFits(s: seq<nat>, n: nat)
    requires forall i | 0 <= i < |s| :: 1 <= s[i] <= n
    requires forall i, j | 0 <= i < j < |s| :: s[i] != s[j]
    ensures |s| <= n
  {
    if |s| == 0 {
      return;
    }
    assert 1 <= s[0] <= n;
    if n in s {
      var k :| 0 <= k < |s| && s[k] == n;
      var rest := s[..k] + s[k + 1..];
      DistinctFits(rest, n - 1);
    } else {
      DistinctFits(s, n - 1);
    }
  }

  /** Fewer pairs than buckets leave a free bucket. */
  lemma {:induction false} FreeBucket(table: seq<nat>, hash: Name -> nat, names: seq<Name>)
    requires TableOk(table, hash, names) && |names| < |table|
    ensures HasFree(table)
  {
    if !HasFree(table) {
      DistinctFits(table, |names|);
    }
  }

  lemma {:induction false} WrapOnto(start: nat, h: nat, m: nat) returns (d: nat)
    requires start < m && h < m
    ensures d < m && Wrap(start, d, m) == h
  {
    d := if start <= h then h - start else h + m - start;
  }

  /** Storing in a free bucket that the probe reaches adds one pair and keeps all others. */
  lemma {:induction false} StoreKeeps(table: seq<nat>, hash: Name -> nat, names: seq<Name>, name: Name, h: nat)
    requires TableOk(table, hash, names) && h < |table| && table[h] == 0
    requires Reaches(table, Home(hash, name, |table|), h)
    ensures TableOk(table[h := |names| + 1], hash, names + [name])
  {
    var t' := table[h := |names| + 1];
    forall i | 0 <= i < |names| + 1
      ensures Placed(t', Home(hash, (names + [name])[i], |table|), i + 1)
    {
      var start := Home(hash, (names + [name])[i], |table|);
      if i < |names| {
        assert (names + [name])[i] == names[i];
        var g: nat :| g < |table| && table[g] == i + 1 && Reaches(table, start, g);
        var d: nat :| d < |table| && Clear(table, start, d) && g == Wrap(start, d, |table|);
        assert Clear(t', start, d);
        assert t'[g] == i + 1 && Reaches(t', start, g);
      } else {
        var d: nat :| d < |table| && Clear(table, start, d) && h == Wrap(start, d, |table|);
        assert Clear(t', start, d);
        assert t'[h] == i + 1 && Reaches(t', start, h);
      }
    }
  }

  lemma {:induction false} EmptyTable(m: nat, hash: Name -> nat)
    requires m > 0
    ensures TableOk(seq(m, _ => 0), hash, [])
  {
  }

  /** The pairs seen by the first `d` steps of a probe all bear other names. */
  ghost predicate Missed(table: seq<nat>, names: seq<Name>, start: nat, d: nat, name: Name)
    requires start < |table| && d <= |table| && forall h | 0 <= h < |table| :: table[h] <= |names|
  {
    forall e: nat | e < d :: var v := table[Wrap(start, e, |table|)]; v == 0 || names[v - 1] != name
  }

  lemma {:induction false} MissedStep(table: seq<nat>, names: seq<Name>, start: nat, d: nat, name: Name)
    requires start < |table| && d < |table| && forall h | 0 <= h < |table| :: table[h] <= |names|
    requires Missed(table, names, start, d, name)
    requires var v := table[Wrap(start, d, |table|)]; v == 0 || names[v - 1] != name
    ensures Missed(table, names, start, d + 1, name)
  {
  }

  lemma {:induction false} MissedPair(table: seq<nat>, names: seq<Name>, start: nat, d: nat, name: Name, i: nat)
    requires start < |table| && d <= |table| && forall h | 0 <= h < |table| :: table[h] <= |names|
    requires i < |names| && Placed(table, start, i + 1) && Missed(table, names, start, d, name)
    requires d < |table| ==> table[Wrap(start, d, |table|)] == 0
    ensures names[i] != name
  {
    var g: nat :| g < |table| && table[g] == i + 1 && Reaches(table, start, g);
    var e: nat :| e < |table| && Clear(table, start, e) && g == Wrap(start, e, |table|);
    assert e < d;
  }

  /** A probe that missed the name up to an empty bucket, or all around, proves it absent. */
  lemma {:induction false} MissedIsAbsent(table: seq<nat>, hash: Name -> nat, names: seq<Name>, name: Name, d: nat)
    requires TableOk(table, hash, names) && d <= |table|
    requires d < |table| ==> table[Wrap(Home(hash, name, |table|), d, |table|)] == 0
    requires Missed(table, names, Home(hash, name, |table|), d, name)
    ensures name !in names
  {
    forall i | 0 <= i < |names| ensures names[i] != name {
      if Home(hash, names[i], |table|) == Home(hash, name, |table|) {
        MissedPair(table, names, Home(hash, name, |table|), d, name, i);
      }
    }
  }

  lemma {:induction false} AllMissed(table: seq<nat>, hash: Name -> nat, names: seq<Name>, name: Name)
    requires TableOk(table, hash, names) && Missed(table, names, Home(hash, name, |table|), |table|, name)
    ensures name !in names
  {
    MissedIsAbsent(table, hash, names, name, |table|);
  }

  lemma {:induction false} ClearStep(table: seq<nat>, start: nat, d: nat)
    requires start < |table| && d < |table| && Clear(table, start, d) && table[Wrap(start, d, |table|)] != 0
    ensures Clear(table, start, d + 1)
  {
  }

  lemma {:induction false} FullCircle(table: seq<nat>, start: nat)
    requires start < |table| && Clear(table, start, |table|)
    ensures !HasFree(table)
  {
    forall g | 0 <= g < |table| ensures table[g] != 0 {
      var e := WrapOnto(start, g, |table|);
    }
  }

  // ---------- the probe loop of lookupValue ----------

  datatype Probe = Found(idx: nat) | Free(h: nat) | Overflow

  method Lookup(names: seq<Name>, table: seq<nat>, hash: Name -> nat, name: Name, given: nat, find: bool)
    returns (r: Probe)
    requires TableOk(table, hash, names)
    requires given == 0 || given == hash(name)
    ensures r.Found? ==> find && 1 <= r.idx <= |names| && names[r.idx - 1] == name
    ensures r.Free? ==> Reaches(table, Home(hash, name, |table|), r.h) && table[r.h] == 0 && (find ==> name !in names)
    ensures r.Overflow? <==> !HasFree(table) && !(find && name in names)
  {
    var hashMod := |table|;
    var start: nat := (if given == 0 then hash(name) else given) % hashMod;
    var h := start;
    ghost var d: nat := 0;
    while table[h] != 0
      invariant d < hashMod && h == Wrap(start, d, hashMod) && Clear(table, start, d)
      invariant find ==> Missed(table, names, start, d, name)
      decreases hashMod - d
    {
      if find {
        if names[table[h] - 1] == name {
          return Found(table[h]);
        }
        MissedStep(table, names, start, d, name);
      }
      ClearStep(table, start, d);
      h := h + 1;
      if h == hashMod {
        h := 0;
      }
      d := d + 1;
      if h == start {
        FullCircle(table, start);
        if find {
          MissedIsAbsent(table, hash, names, name, d);
        }
        return Overflow;
      }
    }
    if find {
      MissedIsAbsent(table, hash, names, name, d);
    }
    return Free(h);
  }

  /** The loop that looks for the first empty bucket when a pair is hashed again. */
  method FirstFree(table: seq<nat>, start: nat) returns (h: nat)
    requires start < |table| && HasFree(table)
    ensures Reaches(table, start, h) && table[h] == 0
  {
    h := start;
    ghost var d: nat := 0;
    while table[h] != 0
      invariant d < |table| && h == Wrap(start, d, |table|) && Clear(table, start, d)
      decreases |table| - d
    {
      ClearStep(table, start, d);
      h := h + 1;
      if h == |table| {
        h := 0;
      }
      d := d + 1;
      if d == |table| {
        FullCircle(table, start);
      }
    }
  }

  /** The loop of deleteField, which goes all around instead of stopping at an empty bucket. */
  method Scan(names: seq<Name>, table: seq<nat>, hash: Name -> nat, name: Name) returns (idx: nat)
    requires TableOk(table, hash, names)
    ensures idx > 0 <==> name in names
    ensures idx > 0 ==> idx <= |names| && names[idx - 1] == name
  {
    var hashMod := |table|;
    var start := Home(hash, name, hashMod);
    var h := start;
    ghost var d: nat := 0;
    while true
      invariant d < hashMod && h == Wrap(start, d, hashMod)
      invariant Missed(table, names, start, d, name)
      decreases hashMod - d
    {
      var idx := table[h];
      if idx != 0 && names[idx - 1] == name {
        return idx;
      }
      MissedStep(table, names, start, d, name);
      h := h + 1;
      if h == hashMod {
        h := 0;
      }
      d := d + 1;
      if h == start {
        break;
      }
    }
    AllMissed(table, hash, names, name);
    return 0;
  }
}
