/** bson_read: one loop over the elements of the file, with a stack of open documents. */
module BsonRead {
  import opened Probing
  import opened MarshalImage
  import opened PairVectors
  import opened BsonReader
  import Decimal

  /** The stacks of the loop as levels; the innermost one has no open element between turns. */
  function Levels(doclen: seq<int>, namestr: seq<Name>, val: seq<Value>, depth: nat): (r: seq<Level>)
    requires depth < |doclen| && depth < |namestr| && depth < |val|
    ensures |r| == depth + 1
  {
    seq(depth + 1, i requires 0 <= i <= depth => Level(doclen[i], if i < depth then namestr[i] else [], val[i]))
  }

  lemma {:induction false} InnermostLevel(doclen: seq<int>, namestr: seq<Name>, val: seq<Value>, depth: nat)
    requires depth < |doclen| && depth < |namestr| && depth < |val|
    ensures Levels(doclen, namestr, val, depth)[depth] == Level(doclen[depth], [], val[depth])
    ensures depth == 0 ==> Levels(doclen, namestr, val, depth) == [Level(doclen[0], [], val[0])]
  {
  }

  /** The name of an element: its bytes up to a zero. */
  method ReadNameAt(file: Name, pos: nat, left: int) returns (r: NameRead, pos': nat)
    requires pos <= |file|
    ensures r == ReadName(file[pos..], left, [])
    ensures pos <= pos' <= |file| && (r.NameOk? ==> r.rest == file[pos'..] && (r.eof ==> pos' == |file|))
  {
    var name: Name := [];
    var doclen := left;
    pos' := pos;
    while pos' < |file| && file[pos'] > 0
      invariant pos <= pos' <= |file|
      invariant ReadName(file[pos'..], doclen, name) == ReadName(file[pos..], left, [])
    {
      assert file[pos'..][1..] == file[pos' + 1..];
      if doclen <= 0 || |name| >= MAX_NAME {
        return NameBad, pos';
      }
      doclen := doclen - 1;
      name := name + [file[pos']];
      pos' := pos' + 1;
    }
    var eof := pos' == |file|;
    if !eof {
      assert file[pos'..][1..] == file[pos' + 1..];
      pos' := pos' + 1;
    }
    r := NameOk(name, doclen - 1, file[pos'..], eof);
  }

  /** fread of a number of bytes, little-endian. */
  method ReadNumber(file: Name, pos: nat, size: nat) returns (ok: bool, num: nat)
    requires pos <= |file| && size > 0
    ensures ok == Has(file[pos..], 0, size)
    ensures ok ==> num == Number(file[pos..][..size]) && pos + size <= |file|
  {
    ok, num := pos + size <= |file|, 0;
    if ok {
      var i := size;
      while i > 0
        invariant 0 <= i <= size && num == Number(file[pos + i..pos + size])
      {
        i := i - 1;
        assert file[pos + i..pos + size][1..] == file[pos + i + 1..pos + size];
        num := file[pos + i] + 256 * num;
      }
      assert file[pos..][..size] == file[pos..pos + size];
    }
  }

  /** The cases of the switch for values without children. */
  method ReadPayloadAt(code: Byte, file: Name, pos: nat) returns (r: Payload)
    requires pos <= |file|
    ensures r == ReadPayload(code, file[pos..])
  {
    hide Number;
    ghost var s := file[pos..];
    var ok, num;
    if code == CODE_DOUBLE {
      ok, num := ReadNumber(file, pos, 8);
      return if ok then Paid(Imm(VT_DBL, num), 8) else Short;
    }
    if code == CODE_STRING {
      ok, num := ReadNumber(file, pos, 4);
      if !ok || num == 0 || pos + 4 + num > |file| {
        return Short;
      }
      assert file[pos + 4..pos + 4 + num - 1] == s[4..4 + num - 1];
      return Paid(Str(KString, file[pos + 4..pos + 4 + num - 1]), 4 + num);
    }
    if code == CODE_BINARY {
      ok, num := ReadNumber(file, pos, 4);
      if !ok || pos + 5 > |file| || num == 0 || pos + 5 + num > |file| {
        return Short;
      }
      assert file[pos + 5..pos + 5 + num] == s[5..5 + num];
      return Paid(Str(KString, file[pos + 5..pos + 5 + num]), 5 + num);
    }
    if code == CODE_OBJECT_ID {
      if pos + 12 > |file| {
        return Short;
      }
      assert file[pos..pos + 12] == s[..12];
      return Paid(Str(KString, file[pos..pos + 12]), 12);
    }
    if code == CODE_BOOL {
      if pos + 1 > |file| {
        return Short;
      }
      return Paid(Imm(VT_BOOL, file[pos]), 1);
    }
    if code == CODE_DATE {
      ok, num := ReadNumber(file, pos, 8);
      return if ok then Paid(Imm(VT_DATE, Decimal.Wrap64(num)), 8) else Short;
    }
    if code == CODE_INT32 {
      ok, num := ReadNumber(file, pos, 4);
      return if ok then Paid(Imm(VT_INT, num), 4) else Short;
    }
    if code == CODE_TIMESTAMP || code == CODE_INT64 {
      ok, num := ReadNumber(file, pos, 8);
      return if ok then Paid(Imm(VT_INT, Decimal.Wrap64(num)), 8) else Short;
    }
    r := Unknown;
  }

  lemma {:induction false} TurnEnds(levels: seq<Level>, amt: nat, s: Name)
    requires |levels| > 0 && (levels[|levels| - 1].left <= 0 || |s| == 0)
    ensures Rest(levels, amt, s) == EndOfFile
  {
  }

  lemma {:induction false} TurnCloses(levels: seq<Level>, amt: nat, file: Name, pos: nat)
    requires |levels| > 0 && levels[|levels| - 1].left > 0 && pos < |file| && file[pos] == 0
    ensures var d := |levels| - 1;
            Rest(levels, amt, file[pos..])
            == if levels[d].left != 1 then EndOfFile
               else if d == 0 then Done(levels[0].val, amt + 1, file[pos + 1..])
               else Rest(levels[..d - 1] + [Attach(levels[d - 1], levels[d].val)], amt + 1, file[pos + 1..])
  {
    hide Attach;
    assert file[pos..][1..] == file[pos + 1..];
  }

  /** Reading on from a value with its name. */
  function OnFrom(levels: seq<Level>, code: Byte, name: NameRead, amt: nat): Turn
    requires |levels| > 0 && name.NameOk?
  {
    if name.eof then (if IsNested(code) || !ReadPayload(code, name.rest).Unknown? then EndOfFile else Fault)
    else
      var t := ElementTurn(levels, code, name.name, name.left, amt, name.rest);
      if t.Go? then Rest(t.levels, t.amt, t.rest) else t
  }

  lemma {:induction false} TurnNames(levels: seq<Level>, amt: nat, file: Name, pos: nat, name: NameRead, after: nat)
    requires |levels| > 0 && levels[|levels| - 1].left > 0 && pos < |file| && file[pos] != 0
    requires name == ReadName(file[pos + 1..], levels[|levels| - 1].left - 1, [])
    requires name.NameOk? ==> pos < after <= |file| && name.rest == file[after..]
    ensures Rest(levels, amt, file[pos..])
         == if name.NameBad? then BadFormat else OnFrom(levels, file[pos], name, amt + (after - pos))
  {
    hide ElementTurn, ReadName, ReadPayload;
    assert file[pos..][1..] == file[pos + 1..];
  }

  lemma {:induction false} TurnOpens(levels: seq<Level>, code: Byte, name: NameRead, amt: nat, file: Name, after: nat)
    requires |levels| > 0 && name.NameOk? && IsNested(code) && after <= |file| && name.rest == file[after..]
    requires name.eof ==> after == |file|
    ensures !Has(file[after..], 0, 4) ==> OnFrom(levels, code, name, amt) == EndOfFile
    ensures Has(file[after..], 0, 4) ==>
              var d, n := |levels| - 1, Number(file[after..][..4]);
              var val := if code == CODE_DOCUMENT then Obj([]) else Arr([]);
              OnFrom(levels, code, name, amt)
              == if |levels| == MAX_DEPTH then Fault
                 else Rest(levels[d := Level(Wrap32(name.left - n), name.name, levels[d].val)]
                           + [Level(Wrap32(n as int - 4), [], val)], amt + 4, file[after + 4..])
  {
    hide Rest, Number, ReadPayload, Wrap32;
    if Has(file[after..], 0, 4) {
      assert file[after..][4..] == file[after + 4..];
    }
  }

  lemma {:induction false} TurnStores(levels: seq<Level>, code: Byte, name: NameRead, amt: nat, file: Name, after: nat)
    requires |levels| > 0 && name.NameOk? && !IsNested(code) && after <= |file| && name.rest == file[after..]
    requires name.eof ==> after == |file|
    ensures var d, p := |levels| - 1, ReadPayload(code, file[after..]);
            OnFrom(levels, code, name, amt)
            == match p
               case Short => EndOfFile
               case Unknown => Fault
               case Paid(v, used) =>
                 Rest(levels[d := Attach(Level(Wrap32(name.left - used), name.name, levels[d].val), v)],
                      amt + used, file[after + used..])
  {
    hide Rest, Number, Wrap32, Attach;
    var p := ReadPayload(code, file[after..]);
    if p.Paid? {
      assert file[after..][p.used..] == file[after + p.used..];
    }
  }

  /** The end of a document: its value goes into the document around it. */
  method CloseLevel(doclen: array<int>, namestr: array<Name>, val: array<Value>, depth: nat)
    requires doclen.Length == namestr.Length == val.Length == MAX_DEPTH && 0 < depth < MAX_DEPTH
    modifies val
    ensures var levels := old(Levels(doclen[..], namestr[..], val[..], depth));
            Levels(doclen[..], namestr[..], val[..], depth - 1)
            == levels[..depth - 1] + [Attach(levels[depth - 1], levels[depth].val)]
  {
    hide Stored;
    val[depth - 1] := Stored(val[depth - 1], namestr[depth - 1], val[depth]);
  }

  /** A nested document or array: the bytes it has come off the one around it. */
  method OpenLevel(
      doclen: array<int>, namestr: array<Name>, val: array<Value>, depth: nat, name: Name, left: int, size: int, empty: Value)
    requires doclen.Length == namestr.Length == val.Length == MAX_DEPTH && depth + 1 < MAX_DEPTH
    modifies doclen, namestr, val
    ensures var levels := old(Levels(doclen[..], namestr[..], val[..], depth));
            Levels(doclen[..], namestr[..], val[..], depth + 1)
            == levels[depth := Level(Wrap32(left - size), name, levels[depth].val)] + [Level(Wrap32(size - 4), [], empty)]
  {
    hide Wrap32;
    namestr[depth] := name;
    doclen[depth] := Wrap32(left - size);
    doclen[depth + 1] := Wrap32(size - 4);
    val[depth + 1] := empty;
  }

  /** Any other element: the value goes into the document. */
  method StoreValue(
      doclen: array<int>, namestr: array<Name>, val: array<Value>, depth: nat, name: Name, left: int, used: nat, v: Value)
    requires doclen.Length == namestr.Length == val.Length == MAX_DEPTH && depth < MAX_DEPTH
    modifies doclen, namestr, val
    ensures var levels := old(Levels(doclen[..], namestr[..], val[..], depth));
            Levels(doclen[..], namestr[..], val[..], depth)
            == levels[depth := Attach(Level(Wrap32(left - used), name, levels[depth].val), v)]
  {
    hide Wrap32, Stored;
    namestr[depth] := name;
    doclen[depth] := Wrap32(left - used);
    val[depth] := Stored(val[depth], namestr[depth], v);
  }

  /** The switch over the code of an element whose name was read. Stops with `t`, or goes on. */
  method ReadElement(
      doclen: array<int>, namestr: array<Name>, val: array<Value>, depth: nat,
      code: Byte, name: NameRead, file: Name, pos: nat, amt: nat)
      returns (t: Turn, depth': nat, pos': nat, amt': nat)
    requires doclen.Length == namestr.Length == val.Length == MAX_DEPTH && depth < MAX_DEPTH
    requires name.NameOk? && pos <= |file| && name.rest == file[pos..] && (name.eof ==> pos == |file|)
    modifies doclen, namestr, val
    ensures depth' < MAX_DEPTH && pos <= pos' <= |file|
    ensures var o := old(OnFrom(Levels(doclen[..], namestr[..], val[..], depth), code, name, amt));
            if t.Go? then o == Rest(Levels(doclen[..], namestr[..], val[..], depth'), amt', file[pos'..]) else o == t
  {
    hide Rest, ReadPayload, Number, Stored, Wrap32, Attach, OnFrom, Levels, Has;
    ghost var levels := Levels(doclen[..], namestr[..], val[..], depth);
    InnermostLevel(doclen[..], namestr[..], val[..], depth);
    depth', pos', amt', t := depth, pos, amt, Go([], 0, []);
    if IsNested(code) {
      TurnOpens(levels, code, name, amt, file, pos);
      var ok, size := ReadNumber(file, pos, 4);
      if !ok {
        t := EndOfFile;
        return;
      }
      if depth + 1 == MAX_DEPTH {
        t := Fault;
        return;
      }
      pos', amt' := pos + 4, amt + 4;
      OpenLevel(doclen, namestr, val, depth, name.name, name.left, size, if code == CODE_DOCUMENT then Obj([]) else Arr([]));
      depth' := depth + 1;
    } else {
      TurnStores(levels, code, name, amt, file, pos);
      var v := ReadPayloadAt(code, file, pos);
      if v.Short? {
        t := EndOfFile;
        return;
      }
      if v.Unknown? {
        t := Fault;
        return;
      }
      StoreValue(doclen, namestr, val, depth, name.name, name.left, v.used, v.v);
      pos', amt' := pos + v.used, amt + v.used;
    }
  }

  /** bson_read */
  method BsonRead(file: Name, start: nat, len: int, amount: nat) returns (t: Turn)
    requires start <= |file|
    ensures t == Read(file[start..], len, amount)
  {
    hide Rest, ReadName, ReadPayload, Number, Stored, Wrap32, Attach, OnFrom, Levels;
    var doclen, namestr, val := new int[MAX_DEPTH], new Name[MAX_DEPTH], new Value[MAX_DEPTH](_ => UNDEF);
    var depth: nat, pos: nat, amt: nat := 0, start, amount;
    val[0], doclen[0] := Obj([]), len;
    InnermostLevel(doclen[..], namestr[..], val[..], depth);
    while doclen[depth] > 0
      invariant depth < MAX_DEPTH && pos <= |file|
      invariant Rest(Levels(doclen[..], namestr[..], val[..], depth), amt, file[pos..]) == Read(file[start..], len, amount)
      decreases |file| - pos
    {
      ghost var levels := Levels(doclen[..], namestr[..], val[..], depth);
      InnermostLevel(doclen[..], namestr[..], val[..], depth);
      if pos == |file| {
        TurnEnds(levels, amt, file[pos..]);
        return EndOfFile;
      }
      var code, left := file[pos], doclen[depth] - 1;
      if code == 0 {
        TurnCloses(levels, amt, file, pos);
        pos, amt := pos + 1, amt + 1;
        if left != 0 {
          return EndOfFile;
        }
        if depth == 0 {
          return Done(val[0], amt, file[pos..]);
        }
        CloseLevel(doclen, namestr, val, depth);
        depth := depth - 1;
      } else {
        var name, after := ReadNameAt(file, pos + 1, left);
        TurnNames(levels, amt, file, pos, name, after);
        if name.NameBad? {
          return BadFormat;
        }
        t, depth, pos, amt := ReadElement(doclen, namestr, val, depth, code, name, file, after, amt + (after - pos));
        if !t.Go? {
          return;
        }
      }
    }
    InnermostLevel(doclen[..], namestr[..], val[..], depth);
    TurnEnds(Levels(doclen[..], namestr[..], val[..], depth), amt, file[pos..]);
    return EndOfFile;
  }
}
