/** The BSON reader: nested documents, each with a count of the bytes it has left. */
module BsonReader {
  import opened Probing
  import opened MarshalImage
  import opened PairVectors
  import opened Decimal

  const MAX_DEPTH := 1024
  const MAX_NAME := 4096
  const WORD32 := 0x1_0000_0000
  const WORD64 := 0x1_0000_0000_0000_0000

  /** Conversion to a signed 32-bit integer. */
  function Wrap32(x: int): (r: int)
    ensures -0x8000_0000 <= r < 0x8000_0000 && (r - x) % WORD32 == 0
    ensures -0x8000_0000 <= x < 0x8000_0000 ==> r == x
  {
    (x + 0x8000_0000) % WORD32 - 0x8000_0000
  }

  /** Little-endian bytes as a number. */
  function Number(s: Name): nat {
    if |s| == 0 then 0 else s[0] + 256 * Number(s[1..])
  }

  /** An open document or array: bytes left, the name its open element has, and what was read so far. */
  datatype Level = Level(left: int, name: Name, val: Value)

  /** Fault: a level too many, or an element code the reader has no case for. */
  datatype Turn =
    | Go(levels: seq<Level>, amt: nat, rest: Name)
    | Done(value: Value, amt: nat, rest: Name)
    | EndOfFile
    | BadFormat
    | Fault

  // ---------- names ----------

  datatype NameRead = NameBad | NameOk(name: Name, left: int, rest: Name, eof: bool)

  /** The name loop: up to a zero byte or the end of the file, as long as the document has bytes left. */
  function ReadName(s: Name, left: int, acc: Name): (r: NameRead)
    ensures r.NameOk? ==> |r.rest| <= |s|
    ensures r.NameOk? && !r.eof ==> left - r.left == |s| - |r.rest|
    decreases |s|
  {
    if |s| == 0 then NameOk(acc, left - 1, s, true)
    else if s[0] == 0 then NameOk(acc, left - 1, s[1..], false)
    else if left > 0 && |acc| < MAX_NAME then ReadName(s[1..], left - 1, acc + [s[0]])
    else NameBad
  }

  // ---------- elements ----------

  const CODE_DOUBLE := 1
  const CODE_STRING := 2
  const CODE_DOCUMENT := 3
  const CODE_ARRAY := 4
  const CODE_BINARY := 5
  const CODE_OBJECT_ID := 7
  const CODE_BOOL := 8
  const CODE_DATE := 9
  const CODE_INT32 := 16
  const CODE_TIMESTAMP := 17
  const CODE_INT64 := 18

  datatype Payload = Short | Unknown | Paid(v: Value, used: nat)

  /** A read of `n` bytes; a read of nothing counts as the end of the file. */
  predicate Has(s: Name, at: nat, n: nat) { n > 0 && at + n <= |s| }

  /** The value of an element without children, and the bytes it takes. */
  function ReadPayload(code: Byte, s: Name): (r: Payload)
    ensures r.Paid? ==> 0 < r.used <= |s|
  {
    if code == CODE_DOUBLE then
      if Has(s, 0, 8) then Paid(Imm(VT_DBL, Number(s[..8])), 8) else Short
    else if code == CODE_STRING then
      if !Has(s, 0, 4) || !Has(s, 4, Number(s[..4])) then Short
      else Paid(Str(KString, s[4..4 + Number(s[..4]) - 1]), 4 + Number(s[..4]))
    else if code == CODE_BINARY then
      if !Has(s, 0, 4) || !Has(s, 4, 1) || !Has(s, 5, Number(s[..4])) then Short
      else Paid(Str(KString, s[5..5 + Number(s[..4])]), 5 + Number(s[..4]))
    else if code == CODE_OBJECT_ID then
      if Has(s, 0, 12) then Paid(Str(KString, s[..12]), 12) else Short
    else if code == CODE_BOOL then
      if Has(s, 0, 1) then Paid(Imm(VT_BOOL, s[0]), 1) else Short
    else if code == CODE_DATE then
      if Has(s, 0, 8) then Paid(Imm(VT_DATE, Wrap64(Number(s[..8]))), 8) else Short
    else if code == CODE_INT32 then
      if Has(s, 0, 4) then Paid(Imm(VT_INT, Number(s[..4])), 4) else Short
    else if code == CODE_TIMESTAMP || code == CODE_INT64 then
      if Has(s, 0, 8) then Paid(Imm(VT_INT, Wrap64(Number(s[..8]))), 8) else Short
    else Unknown
  }

  predicate IsNested(code: int) { code == CODE_DOCUMENT || code == CODE_ARRAY }

  /** The document with `v` stored under a name, or the array with `v` at its end. */
  function Stored(val: Value, name: Name, v: Value): Value {
    match val
    case Obj(pairs) => Obj(Put(pairs, name, v))
    case Arr(elems) => Arr(elems + [v])
    case _ => val
  }

  /** The level with `v` stored for its open element. */
  function Attach(level: Level, v: Value): Level {
    Level(level.left, [], Stored(level.val, level.name, v))
  }

  /** The end of the innermost document. */
  function CloseTurn(levels: seq<Level>, amt: nat, rest: Name): Turn
    requires |levels| > 0
  {
    var d := |levels| - 1;
    if levels[d].left != 1 then EndOfFile
    else if d == 0 then Done(levels[0].val, amt, rest)
    else Go(levels[..d - 1] + [Attach(levels[d - 1], levels[d].val)], amt, rest)
  }

  /** An element after its code and name: a nested document opens a level, any other value is stored. */
  function ElementTurn(levels: seq<Level>, code: Byte, name: Name, left: int, amt: nat, s: Name): (t: Turn)
    requires |levels| > 0
    ensures t.Go? ==> |t.levels| > 0 && |t.rest| < |s| && t.amt + |t.rest| == amt + |s|
    ensures !t.Done?
  {
    var d := |levels| - 1;
    if IsNested(code) then
      if |s| < 4 then EndOfFile
      else if |levels| == MAX_DEPTH then Fault
      else
        var n := Number(s[..4]);
        var val := if code == CODE_DOCUMENT then Obj([]) else Arr([]);
        Go(levels[d := Level(Wrap32(left - n), name, levels[d].val)] + [Level(Wrap32(n - 4), [], val)], amt + 4, s[4..])
    else
      match ReadPayload(code, s)
      case Short => EndOfFile
      case Unknown => Fault
      case Paid(v, used) =>
        Go(levels[d := Attach(Level(Wrap32(left - used), name, levels[d].val), v)], amt + used, s[used..])
  }

  /** One turn of the loop. */
  function TurnOf(levels: seq<Level>, amt: nat, s: Name): (t: Turn)
    requires |levels| > 0
    ensures t.Go? ==> |t.levels| > 0 && |t.rest| < |s| && t.amt + |t.rest| == amt + |s|
    ensures t.Done? ==> t.amt + |t.rest| == amt + |s| && |t.rest| <= |s|
  {
    var left := levels[|levels| - 1].left;
    if left <= 0 || |s| == 0 then EndOfFile
    else if s[0] == 0 then CloseTurn(levels, amt + 1, s[1..])
    else match ReadName(s[1..], left - 1, [])
      case NameBad => BadFormat
      case NameOk(name, left', rest, eof) =>
        if eof then (if IsNested(s[0]) || !ReadPayload(s[0], rest).Unknown? then EndOfFile else Fault)
        else ElementTurn(levels, s[0], name, left', amt + |s| - |rest|, rest)
  }

  /** The outcome of reading on. */
  function Rest(levels: seq<Level>, amt: nat, s: Name): (t: Turn)
    requires |levels| > 0
    ensures !t.Go?
    decreases |s|
  {
    var t := TurnOf(levels, amt, s);
    if t.Go? then Rest(t.levels, t.amt, t.rest) else t
  }

  /** bson_read of a document that has `len` bytes after its length field. */
  function Read(s: Name, len: int, amt: nat): Turn { Rest([Level(len, [], Obj([]))], amt, s) }

  // ---------- the counters ----------

  function Left(levels: seq<Level>): int {
    if |levels| == 0 then 0 else Left(levels[..|levels| - 1]) + levels[|levels| - 1].left
  }

  /** Equal as 32-bit counters. */
  ghost predicate Same32(a: int, b: int) { exists k: int :: a == b + WORD32 * k }

  lemma {:induction false} Wrapped(x: int)
    ensures Same32(Wrap32(x), x)
  {
    assert Wrap32(x) == x + WORD32 * ((Wrap32(x) - x) / WORD32);
  }

  lemma {:induction false} Same32Adds(a: int, b: int, c: int, d: int)
    requires Same32(a, b) && Same32(c, d)
    ensures Same32(a + c, b + d)
  {
    var k :| a == b + WORD32 * k;
    var l :| c == d + WORD32 * l;
    assert a + c == b + d + WORD32 * (k + l);
  }

  lemma {:induction false} Same32Trans(a: int, b: int, c: int)
    requires Same32(a, b) && Same32(b, c)
    ensures Same32(a, c)
  {
    var k :| a == b + WORD32 * k;
    var l :| b == c + WORD32 * l;
    assert a == c + WORD32 * (k + l);
  }

  /** Replacing the last level changes the sum by the difference. */
  lemma {:induction false} LeftLast(levels: seq<Level>, top: Level)
    requires |levels| > 0
    ensures Left(levels[|levels| - 1 := top]) == Left(levels) - levels[|levels| - 1].left + top.left
    ensures Left(levels + [top]) == Left(levels) + top.left
  {
    assert levels[|levels| - 1 := top][..|levels| - 1] == levels[..|levels| - 1];
    assert (levels + [top])[..|levels|] == levels;
  }

  /** Bytes consumed plus bytes left over all levels stays what it was. */
  lemma {:induction false} TurnBalances(levels: seq<Level>, amt: nat, s: Name)
    requires |levels| > 0
    ensures var t := TurnOf(levels, amt, s);
            && (t.Go? ==> Same32(t.amt + Left(t.levels), amt + Left(levels)))
            && (t.Done? ==> t.amt == amt + Left(levels))
  {
    hide ReadName, ReadPayload, Wrap32, Same32, Left, Number, Attach;
    var d := |levels| - 1;
    var left := levels[d].left;
    if left > 0 && |s| > 0 {
      if s[0] == 0 {
        ClosedLeft(levels, amt + 1, s[1..]);
      } else {
        var r := ReadName(s[1..], left - 1, []);
        if r.NameOk? && !r.eof {
          ElementBalances(levels, s[0], r.name, r.left, amt + |s| - |r.rest|, r.rest);
        }
      }
    }
  }

  lemma {:induction false} ClosedLeft(levels: seq<Level>, amt: nat, rest: Name)
    requires |levels| > 0
    ensures var t := CloseTurn(levels, amt, rest);
            && (t.Go? ==> Same32(t.amt + Left(t.levels), amt + Left(levels) - 1))
            && (t.Done? ==> t.amt == amt + Left(levels) - 1)
  {
    var d := |levels| - 1;
    if levels[d].left == 1 {
      if d == 0 {
        assert levels[..d] == [];
      } else {
        var parent := Attach(levels[d - 1], levels[d].val);
        assert levels[..d][..d - 1] == levels[..d - 1];
        assert (levels[..d - 1] + [parent])[..d - 1] == levels[..d - 1];
        var a := Left(levels[..d - 1] + [parent]);
        assert a == Left(levels) - 1;
        assert amt + a == amt + Left(levels) - 1 + WORD32 * 0;
      }
    }
  }

  lemma {:induction false} ElementBalances(levels: seq<Level>, code: Byte, name: Name, left: int, amt: nat, s: Name)
    requires |levels| > 0
    ensures var t := ElementTurn(levels, code, name, left, amt, s);
            t.Go? ==> Same32(t.amt + Left(t.levels), amt + Left(levels) - levels[|levels| - 1].left + left)
  {
    hide ReadPayload, Wrap32, Same32, Left, Number;
    var d := |levels| - 1;
    var t := ElementTurn(levels, code, name, left, amt, s);
    var others := Left(levels) - levels[d].left;
    if t.Go? {
      var paid := |s| - |t.rest|;
      SameSelf(amt + paid + others);
      if IsNested(code) {
        var n: int := Number(s[..4]);
        var parent := Level(Wrap32(left - n), name, levels[d].val);
        LeftLast(levels, parent);
        LeftLast(levels[d := parent], t.levels[d + 1]);
        Wrapped(left - n);
        Wrapped(n - 4);
        Same32Adds(Wrap32(left - n), left - n, Wrap32(n - 4), n - 4);
        Same32Adds(amt + paid + others, amt + paid + others, Wrap32(left - n) + Wrap32(n - 4), left - n + (n - 4));
      } else {
        LeftLast(levels, t.levels[d]);
        Wrapped(left - paid);
        Same32Adds(amt + paid + others, amt + paid + others, Wrap32(left - paid), left - paid);
      }
    }
  }

  lemma {:induction false} SameSelf(a: int)
    ensures Same32(a, a)
  {
    assert a == a + WORD32 * 0;
  }

  /** A successful read takes as many bytes as all levels had left, as 32-bit counters. */
  lemma {:induction false} RunBalances(levels: seq<Level>, amt: nat, s: Name)
    requires |levels| > 0
    ensures var t := Rest(levels, amt, s);
            t.Done? ==> Same32(t.amt, amt + Left(levels)) && t.amt + |t.rest| == amt + |s| && |t.rest| <= |s|
    decreases |s|
  {
    hide TurnOf, Same32, Left;
    var t := TurnOf(levels, amt, s);
    TurnBalances(levels, amt, s);
    if t.Go? {
      RunBalances(t.levels, t.amt, t.rest);
      var u := Rest(levels, amt, s);
      if u.Done? { Same32Trans(u.amt, t.amt + Left(t.levels), amt + Left(levels)); }
    } else if t.Done? {
      SameSelf(t.amt);
    }
  }

  /** Success means that exactly the declared length was read, from any input of less than 2^32 bytes. */
  lemma {:induction false} ReadsDeclared(s: Name, len: int, amt: nat)
    requires 0 <= len < 0x8000_0000 && |s| < WORD32
    ensures var t := Read(s, len, amt);
            t.Done? ==> t.amt == amt + len && |t.rest| == |s| - len
  {
    var levels := [Level(len, [], Obj([]))];
    RunBalances(levels, amt, s);
    assert levels[..0] == [];
    assert Left(levels) == len;
    var t := Read(s, len, amt);
    if t.Done? {
      var k :| t.amt == amt + len + WORD32 * k;
      assert k == 0;
    }
  }
}
