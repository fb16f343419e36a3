/**
 The in-memory object: a vector of name/value pairs in insertion order, followed by a hash
 table of pair numbers, both inside one vector allocation that doubles when it is full.
 */
module ObjectTable {
  import opened Probing

  datatype Option<+T> = None | Some(value: T)

  const FIRST_CAPACITY := 10

  /** The capacity vec_grow chooses. */
  function GrowCapacity(cap: nat, cnt: nat, increment: nat): nat {
    var doubled, needed := 2 * cap, cnt + increment;
    var c := if doubled > needed then doubled else needed;
    if c < FIRST_CAPACITY then FIRST_CAPACITY else c
  }

  /** Bytes vec_grow requests for pairs with a hash table; its `size` variable has 32 bits. */
  function AllocBytes(cap: nat): nat {
    32 * cap + 8 + HashBytes(cap) * 3 * cap / 2
  }

  predicate Allocatable(cap: nat) { 38 * cap + 8 < 0x1_0000_0000 }

  lemma {:induction false} AllocatableFits(cap: nat)
    requires Allocatable(cap)
    ensures AllocBytes(cap) < 0x1_0000_0000
  {
    var w := HashBytes(cap);
    assert w <= 4;
    assert w * 3 * cap <= 12 * cap by {
      assert w * 3 * cap == (w * 3) * cap;
      MulMono(w * 3, 12, cap);
    }
  }

  lemma {:induction false} MulMono(a: nat, b: nat, c: nat)
    requires a <= b
    ensures a * c <= b * c
  {
  }

  /** The pairs as a map from names to values. */
  function PairMap<V>(names: seq<Name>, values: seq<V>): (m: map<Name, V>)
    requires |names| == |values|
    ensures forall k :: k in m <==> k in names
  {
    if |names| == 0 then map[]
    else PairMap(names[..|names| - 1], values[..|names| - 1])[names[|names| - 1] := values[|names| - 1]]
  }

  lemma {:induction false} PairMapAt<V>(names: seq<Name>, values: seq<V>, i: nat)
    requires |names| == |values| && Distinct(names) && i < |names|
    ensures PairMap(names, values)[names[i]] == values[i]
  {
    if i < |names| - 1 {
      PairMapAt(names[..|names| - 1], values[..|names| - 1], i);
    }
  }

  /** Changing one slot changes the map at that name only. */
  lemma {:induction false} PairMapUpdate<V>(names: seq<Name>, values: seq<V>, i: nat, v: V)
    requires |names| == |values| && Distinct(names) && i < |names|
    ensures PairMap(names, values[i := v]) == PairMap(names, values)[names[i] := v]
  {
    var a, b := PairMap(names, values[i := v]), PairMap(names, values)[names[i] := v];
    forall k | k in names ensures a[k] == b[k] {
      var j :| 0 <= j < |names| && names[j] == k;
      PairMapAt(names, values[i := v], j);
      PairMapAt(names, values, j);
    }
  }

  lemma {:induction false} PairMapAppend<V>(names: seq<Name>, values: seq<V>, name: Name, v: V)
    requires |names| == |values|
    ensures PairMap(names + [name], values + [v]) == PairMap(names, values)[name := v]
  {
    assert (names + [name])[..|names|] == names && (values + [v])[..|names|] == values;
  }

  /** Creating the slot when it is missing and then storing is one map update. */
  lemma {:induction false} PairMapAssign<V>(
      names: seq<Name>, values: seq<V>, names': seq<Name>, values': seq<V>, slot: nat, undef: V, v: V)
    requires |names| == |values| && |names'| == |values'| && Distinct(names') && slot < |names'|
    requires (names' == names && values' == values)
             || (names' == names + [names'[slot]] && values' == values + [undef])
    ensures PairMap(names', values'[slot := v]) == PairMap(names, values)[names'[slot] := v]
  {
    PairMapUpdate(names', values', slot, v);
    if names' != names {
      PairMapAppend(names, values, names'[slot], undef);
    }
  }

  /** A pair number stored at its bucket with the entry width of the capacity. */
  lemma {:induction false} EntryStored(
      cap: nat, table: seq<nat>, hash: Name -> nat, names: seq<Name>, name: Name, h: nat)
    requires |names| < cap && Allocatable(cap)
    requires TableOk(table, hash, names) && h < |table| && table[h] == 0
    requires Reaches(table, Home(hash, name, |table|), h)
    ensures var t := HashStore(table, HashBytes(cap), h, |names| + 1);
            |t| == |table| && TableOk(t, hash, names + [name])
  {
    WidthSuffices(cap, |names| + 1);
    StoreKeeps(table, hash, names, name, h);
  }

  class JsObject<V> {
    const hash: Name -> nat
    const undef: V
    var names: seq<Name>
    var values: seq<V>
    var cap: nat
    var table: seq<nat>

    ghost predicate Valid()
      reads this
    {
      && |names| == |values| && Distinct(names)
      && |table| == 3 * cap / 2
      && (cap == 0 ==> names == [])
      && (cap > 0 ==> |names| < cap && Allocatable(cap) && TableOk(table, hash, names))
    }

    ghost function Contents(): map<Name, V>
      reads this
      requires |names| == |values|
    {
      PairMap(names, values)
    }

    constructor (hash: Name -> nat, undef: V)
      ensures Valid() && names == [] && this.hash == hash && this.undef == undef
    {
      this.hash, this.undef := hash, undef;
      names, values, cap, table := [], [], 0, [];
    }

    /** Pair number of the name, or the negated bucket where it can be stored. */
    method LookupValue(name: Name, given: nat, find: bool) returns (r: int)
      requires Valid() && (given == 0 || given == hash(name))
      ensures r > 0 ==> find && r <= |names| && names[r - 1] == name
      ensures r <= 0 ==> (find ==> name !in names)
      ensures r <= 0 && cap > 0 ==>
                -r < |table| && table[-r] == 0 && Reaches(table, Home(hash, name, |table|), -r)
    {
      if cap == 0 {
        return 0;
      }
      FreeBucket(table, hash, names);
      var p := Probing.Lookup(names, table, hash, name, given, find);
      match p
      case Found(idx) => r := idx;
      case Free(h) => r := -(h as int);
      case Overflow => assert false; r := 0;
    }

    /** Appends the name with an undefined value, growing and hashing again when full. */
    method SetAttribute(name: Name, h: nat) returns (slot: nat)
      requires Valid() && name !in names && Allocatable(GrowCapacity(cap, |names|, cap))
      requires cap > 0 ==> h < |table| && table[h] == 0 && Reaches(table, Home(hash, name, |table|), h)
      modifies this
      ensures Valid() && names == old(names) + [name] && values == old(values) + [undef]
      ensures slot == |old(names)|
    {
      slot := |names|;
      if |names| + 1 < cap {
        EntryStored(cap, table, hash, names, name, h);
        table := HashStore(table, HashBytes(cap), h, |names| + 1);
        names, values := names + [name], values + [undef];
      } else {
        var newCap := GrowCapacity(cap, |names|, cap);
        var t := Rehash(hash, names + [name], newCap);
        names, values, cap, table := names + [name], values + [undef], newCap, t;
      }
    }

    /** Enters every pair into the zeroed table of a grown vector. */
    static method Rehash(hash: Name -> nat, names: seq<Name>, cap: nat) returns (table: seq<nat>)
      requires |names| < cap && Allocatable(cap)
      ensures |table| == 3 * cap / 2 && TableOk(table, hash, names)
    {
      table := seq(3 * cap / 2, _ => 0);
      EmptyTable(3 * cap / 2, hash);
      var idx := 0;
      while idx < |names|
        invariant idx <= |names| && |table| == 3 * cap / 2
        invariant TableOk(table, hash, names[..idx])
      {
        FreeBucket(table, hash, names[..idx]);
        var h := FirstFree(table, Home(hash, names[idx], |table|));
        EntryStored(cap, table, hash, names[..idx], names[idx], h);
        assert names[..idx] + [names[idx]] == names[..idx + 1];
        table := HashStore(table, HashBytes(cap), h, idx + 1);
        idx := idx + 1;
      }
      assert names[..idx] == names;
    }

    /** The slot of a property; an assignment creates it, a read reports None when it is missing. */
    method Lookup(name: Name, lVal: bool, given: nat) returns (slot: Option<nat>)
      requires Valid() && (given == 0 || given == hash(name))
      requires lVal && name !in names ==> Allocatable(GrowCapacity(cap, |names|, cap))
      modifies this
      ensures Valid() && (lVal ==> slot.Some?)
      ensures slot.Some? ==> slot.value < |names| && names[slot.value] == name
      ensures slot.Some? <==> lVal || name in old(names)
      ensures name in old(names) || !lVal ==>
                names == old(names) && values == old(values) && cap == old(cap) && table == old(table)
      ensures name !in old(names) && lVal ==> names == old(names) + [name] && values == old(values) + [undef]
    {
      var idx := LookupValue(name, given, true);
      if idx > 0 {
        return Some(idx - 1);
      }
      if !lVal {
        return None;
      }
      var s := SetAttribute(name, -idx);
      slot := Some(s);
    }

    /** Assignment: a map update that keeps the order in which names were first assigned. */
    method Put(name: Name, v: V)
      requires Valid()
      requires name !in names ==> Allocatable(GrowCapacity(cap, |names|, cap))
      modifies this
      ensures Valid()
      ensures names == if name in old(names) then old(names) else old(names) + [name]
      ensures Contents() == old(Contents())[name := v]
    {
      hide TableOk, Distinct, Allocatable, GrowCapacity;
      var slot := Lookup(name, true, 0);
      PairMapAssign(old(names), old(values), names, values, slot.value, undef, v);
      values := values[slot.value := v];
    }

    /** Reading finds the last value assigned under the name, and nothing for other names. */
    method Get(name: Name) returns (v: Option<V>)
      requires Valid()
      modifies this
      ensures Valid() && names == old(names) && values == old(values)
      ensures v == if name in old(Contents()) then Some(old(Contents())[name]) else None
    {
      var slot := Lookup(name, false, 0);
      match slot
      case Some(i) =>
        PairMapAt(names, values, i);
        v := Some(values[i]);
      case None => v := None;
    }

    /** The scan of deleteField, which goes all around instead of stopping at an empty bucket. */
    method DeleteField(name: Name) returns (slot: Option<nat>)
      requires Valid()
      ensures slot.Some? <==> name in names
      ensures slot.Some? ==> slot.value < |names| && names[slot.value] == name
    {
      if cap == 0 {
        return None;
      }
      var idx := Scan(names, table, hash, name);
      return if idx > 0 then Some(idx - 1) else None;
    }
  }
}
