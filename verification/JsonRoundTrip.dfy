/** What the parser makes of the printers' text. */
module JsonRoundTrip {
  import opened Probing
  import opened MarshalImage
  import opened PairVectors
  import opened Decimal
  import opened Sequences
  import opened JsonPrint
  import opened JsonMachine
  import opened ObjectTable

  // ---------- the values ----------

  ghost predicate PlainText(s: Name) { forall i | 0 <= i < |s| :: s[i] != QUOTE && s[i] != BACKSLASH }

  /** Null, booleans, 64-bit integers, not-a-number and the infinities. */
  predicate PlainLeaf(tag: nat, bits: int) {
    || (tag == VT_NULL && bits == 0)
    || (tag == VT_BOOL && 0 <= bits <= 1)
    || (tag == VT_INT && -HALF < bits < HALF)
    || (tag == VT_NAN && bits == 0)
    || (tag == VT_INFINITE && 0 <= bits <= 1)
  }

  /** Trees of such leaves, strings without quote or backslash, arrays and objects with distinct names. */
  ghost predicate Plain(v: Value)
    decreases v
  {
    match v
    case Imm(tag, bits) => PlainLeaf(tag, bits)
    case Str(kind, bytes) => kind == KString && PlainText(bytes)
    case Arr(elems) => forall i | 0 <= i < |elems| :: Plain(elems[i])
    case Obj(pairs) =>
      && DistinctNames(pairs)
      && (Find(pairs, TO_STRING) == UNDEF || Find(pairs, TO_STRING).Str?)
      && (forall i | 0 <= i < |pairs| :: PlainText(pairs[i].name))
      && forall i | 0 <= i < |pairs| :: Plain(pairs[i].value)
  }

  /** The same trees with any strings and names. */
  ghost predicate Regular(v: Value)
    decreases v
  {
    match v
    case Imm(tag, bits) => PlainLeaf(tag, bits)
    case Str(kind, _) => kind == KString
    case Arr(elems) => forall i | 0 <= i < |elems| :: Regular(elems[i])
    case Obj(pairs) =>
      && DistinctNames(pairs)
      && (Find(pairs, TO_STRING) == UNDEF || Find(pairs, TO_STRING).Str?)
      && forall i | 0 <= i < |pairs| :: Regular(pairs[i].value)
  }

  /** No string or name of the tree has a quote or a backslash. */
  ghost predicate NoMarks(v: Value)
    decreases v
  {
    match v
    case Imm(_, _) => true
    case Str(_, bytes) => PlainText(bytes)
    case Arr(elems) => forall i | 0 <= i < |elems| :: NoMarks(elems[i])
    case Obj(pairs) => forall i | 0 <= i < |pairs| :: PlainText(pairs[i].name) && NoMarks(pairs[i].value)
  }

  lemma {:induction false} PlainExactly(v: Value)
    ensures Plain(v) <==> Regular(v) && NoMarks(v)
    decreases v
  {
    match v
    case Imm(_, _) =>
    case Str(_, _) =>
    case Arr(elems) => forall i | 0 <= i < |elems| { PlainExactly(elems[i]); }
    case Obj(pairs) => forall i | 0 <= i < |pairs| { PlainExactly(pairs[i].value); }
  }

  /** No object of the tree has a property `toString` of its own. */
  ghost predicate NoOwnText(v: Value)
    decreases v
  {
    match v
    case Arr(elems) => forall i | 0 <= i < |elems| :: NoOwnText(elems[i])
    case Obj(pairs) =>
      && Find(pairs, TO_STRING) == UNDEF
      && forall i | 0 <= i < |pairs| :: NoOwnText(pairs[i].value)
    case _ => true
  }

  /** The tree with the infinities exchanged. */
  function Flip(v: Value): (r: Value)
    ensures r.Str? == v.Str? && r.Arr? == v.Arr? && r.Obj? == v.Obj?
    ensures IsUndef(r) <==> IsUndef(v)
    decreases v, 0
  {
    match v
    case Imm(tag, bits) => if tag == VT_INFINITE then Imm(tag, 1 - bits) else v
    case Str(_, _) => v
    case Arr(elems) => Arr(FlipElems(elems, |elems|))
    case Obj(pairs) => Obj(FlipPairs(pairs, |pairs|))
  }

  function FlipElems(elems: seq<Value>, n: nat): (r: seq<Value>)
    requires n <= |elems|
    ensures |r| == n
    decreases elems, n
  {
    if n == 0 then [] else FlipElems(elems, n - 1) + [Flip(elems[n - 1])]
  }

  function FlipPairs(pairs: seq<Pair>, n: nat): (r: seq<Pair>)
    requires n <= |pairs|
    ensures |r| == n && forall i | 0 <= i < n :: r[i].name == pairs[i].name
    decreases pairs, n
  {
    if n == 0 then [] else FlipPairs(pairs, n - 1) + [Pair(pairs[n - 1].name, Flip(pairs[n - 1].value))]
  }

  // ---------- one token ----------

  lemma {:induction false} One(m: Machine, c: Byte, s: Name, strtod: StrToD)
    requires Runs(m)
    ensures TurnOf(m, c, strtod).Go? ==> Rest(m, [c] + s, strtod) == Rest(TurnOf(m, c, strtod).m, s, strtod)
    ensures !TurnOf(m, c, strtod).Go? ==> Rest(m, [c] + s, strtod) == TurnOf(m, c, strtod)
  {
    assert ([c] + s)[1..] == s;
  }

  /** A string without quote or backslash is read up to its closing quote. */
  lemma {:induction false} ReadsText(m: Machine, s: Name, r: Name, strtod: StrToD)
    requires m.mode.InString? && !m.mode.quot && m.next.Str? && PlainText(s)
    ensures Rest(m, s + ([QUOTE] + r), strtod)
         == Rest(m.(mode := Element, next := Cat(Cat(m.next, m.mode.buff), s)), r, strtod)
    decreases |s|
  {
    hide Rest, ElementTurn, LiteralTurn, NumberTurn;
    var buff := m.mode.buff;
    if |s| == 0 {
      Empty([QUOTE] + r);
      One(m, QUOTE, r, strtod);
      assert Cat(Cat(m.next, buff), s) == Cat(m.next, buff);
    } else {
      First(s, [QUOTE] + r);
      One(m, s[0], s[1..] + ([QUOTE] + r), strtod);
      var m' := TurnOf(m, s[0], strtod).m;
      ReadsText(m', s[1..], r, strtod);
      CatOne(m.next, buff, s);
    }
  }

  lemma {:induction false} CatOne(v: Value, buff: Name, s: Name)
    requires v.Str? && |s| > 0
    ensures Cat(Cat(v, buff), s) == Cat(Cat(v, buff + [s[0]]), s[1..])
    ensures Cat(Cat(v, buff), s) == Cat(Cat(Cat(v, buff), [s[0]]), s[1..])
  {
    assert v.bytes + buff + s == v.bytes + (buff + [s[0]]) + s[1..];
    assert v.bytes + buff + s == v.bytes + buff + [s[0]] + s[1..];
  }

  /** A quoted string is read as that string. */
  lemma {:induction false} ReadsQuoted(stack: seq<Frame>, s: Name, r: Name, strtod: StrToD)
    requires PlainText(s)
    ensures Rest(Machine(Element, false, UNDEF, stack), Quoted(s) + r, strtod)
         == Rest(Machine(Element, false, Str(KString, s), stack), r, strtod)
  {
    hide Rest, PlainText;
    var m := Machine(Element, false, UNDEF, stack);
    assert Quoted(s) + r == [QUOTE] + (s + ([QUOTE] + r));
    One(m, QUOTE, s + ([QUOTE] + r), strtod);
    var m1 := TurnOf(m, QUOTE, strtod).m;
    assert m1 == Machine(InString([], false), false, Str(KString, []), stack);
    ReadsText(m1, s, r, strtod);
    assert [] + [] + s == s;
  }

  lemma {:induction false} ReadsDigits(m: Machine, s: Name, r: Name, strtod: StrToD)
    requires m.mode.Number? && |m.mode.buff| >= 2 && AllDigits(s) && |m.mode.buff| + |s| <= BUFF_SIZE
    requires |m.mode.buff| == 2 && m.mode.buff[1] == ZERO_DIGIT ==> s == []
    ensures Rest(m, s + r, strtod) == Rest(m.(mode := Number(m.mode.buff + s)), r, strtod)
    decreases |s|
  {
    hide Rest, ElementTurn, LiteralTurn, TextTurn, Numeral;
    var buff := m.mode.buff;
    if |s| == 0 {
      Empty(r);
      assert buff + s == buff;
    } else {
      First(s, r);
      One(m, s[0], s[1..] + r, strtod);
      ReadsDigits(m.(mode := Number(buff + [s[0]])), s[1..], r, strtod);
      assert buff + [s[0]] + s[1..] == buff + s;
    }
  }

  lemma {:induction false} ReadsLetters(m: Machine, s: Name, r: Name, strtod: StrToD)
    requires m.mode.Literal? && (forall i | 0 <= i < |s| :: IsAlpha(s[i])) && |m.mode.buff| + |s| <= BUFF_SIZE
    ensures Rest(m, s + r, strtod) == Rest(m.(mode := Literal(m.mode.buff + s)), r, strtod)
    decreases |s|
  {
    hide Rest, ElementTurn, NumberTurn, TextTurn, LiteralValue;
    var buff := m.mode.buff;
    if |s| == 0 {
      Empty(r);
      assert buff + s == buff;
    } else {
      First(s, r);
      One(m, s[0], s[1..] + r, strtod);
      ReadsLetters(m.(mode := Literal(buff + [s[0]])), s[1..], r, strtod);
      assert buff + [s[0]] + s[1..] == buff + s;
    }
  }

  /** What stands after a value inside a container. */
  predicate Terminates(r: Name) {
    |r| > 0 && (r[0] == COMMA || r[0] == RIGHT_BRACE || r[0] == RIGHT_BRACKET)
  }

  /** The end of a number: the value, with the terminator still to read. */
  lemma {:induction false} NumberEnds(m: Machine, r: Name, strtod: StrToD)
    requires m.mode.Number? && |m.mode.buff| >= 2 && (Terminates(r) || r == [])
    ensures Rest(m, r, strtod) == Rest(m.(mode := Element, next := Numeral(m.mode.buff, strtod)), r, strtod)
  {
    hide ElementTurn, LiteralTurn, TextTurn, Numeral;
  }

  lemma {:induction false} LiteralEnds(m: Machine, v: Value, r: Name, strtod: StrToD)
    requires m.mode.Literal? && LiteralValue(m.mode.buff) == Some(v) && Terminates(r)
    ensures Rest(m, r, strtod) == Rest(m.(mode := Element, next := v), r, strtod)
  {
    hide ElementTurn, NumberTurn, TextTurn, LiteralValue;
  }

  /** The digits of a number are read as that number. */
  lemma {:induction false} ReadsInt(stack: seq<Frame>, i: int, r: Name, strtod: StrToD)
    requires -HALF < i < HALF && (Terminates(r) || r == [])
    ensures Rest(Machine(Element, false, UNDEF, stack), IntText(i) + r, strtod)
         == Rest(Machine(Element, false, Imm(VT_INT, i), stack), r, strtod)
  {
    hide Rest, Digits, Fraction, Terminates;
    var n := if i < 0 then -i else i;
    var s := Digits(n);
    Digits64(n);
    DigitsStart(n);
    FractionOfDigits(n);
    var m := Machine(Element, i < 0, UNDEF, stack);
    if i < 0 {
      var m0 := Machine(Element, false, UNDEF, stack);
      assert IntText(i) + r == [MINUS] + (s + r);
      One(m0, MINUS, s + r, strtod);
    }
    First(s, r);
    One(m, s[0], s[1..] + r, strtod);
    var sign := if i < 0 then MINUS else PLUS;
    var m1 := Machine(Number([sign, s[0]]), false, UNDEF, stack);
    assert TurnOf(m, s[0], strtod) == Go(m1);
    ReadsDigits(m1, s[1..], r, strtod);
    var buff := [sign, s[0]] + s[1..];
    assert buff == [sign] + s && buff[1..] == s;
    NumberEnds(m1.(mode := Number(buff)), r, strtod);
    assert Numeral(buff, strtod) == Imm(VT_INT, i);
  }

  /** A literal of letters is read as its value. */
  lemma {:induction false} ReadsWord(stack: seq<Frame>, negative: bool, s: Name, v: Value, r: Name, strtod: StrToD)
    requires 0 < |s| <= 8 && (forall i | 0 <= i < |s| :: IsAlpha(s[i])) && Terminates(r)
    requires LiteralValue(if negative then [MINUS] + s else s) == Some(v)
    ensures Rest(Machine(Element, negative, UNDEF, stack), s + r, strtod)
         == Rest(Machine(Element, false, v, stack), r, strtod)
  {
    hide Rest, LiteralValue, Terminates;
    var m := Machine(Element, negative, UNDEF, stack);
    First(s, r);
    One(m, s[0], s[1..] + r, strtod);
    var buff := if negative then [MINUS, s[0]] else [s[0]];
    var m1 := Machine(Literal(buff), false, UNDEF, stack);
    assert TurnOf(m, s[0], strtod) == Go(m1);
    ReadsLetters(m1, s[1..], r, strtod);
    assert buff + s[1..] == if negative then [MINUS] + s else s;
    LiteralEnds(m1.(mode := Literal(buff + s[1..])), v, r, strtod);
  }

  /** A leaf inside a container is read as the leaf, an infinity as the other one. */
  lemma {:induction false} ReadsLeaf(stack: seq<Frame>, tag: nat, bits: int, r: Name, show: Show, strtod: StrToD)
    requires PlainLeaf(tag, bits) && Terminates(r)
    ensures Rest(Machine(Element, false, UNDEF, stack), LeafText(Imm(tag, bits), show) + r, strtod)
         == Rest(Machine(Element, false, Flip(Imm(tag, bits)), stack), r, strtod)
  {
    hide Rest, Terminates, IntText;
    var m := Machine(Element, false, UNDEF, stack);
    if tag == VT_INT {
      ReadsInt(stack, bits, r, strtod);
    } else if tag == VT_NULL {
      ReadsWord(stack, false, NULL, Imm(VT_NULL, 0), r, strtod);
    } else if tag == VT_NAN {
      ReadsWord(stack, false, NAN, Imm(VT_NAN, 0), r, strtod);
    } else if tag == VT_BOOL {
      ReadsWord(stack, false, if bits != 0 then TRUE else FALSE, Imm(VT_BOOL, bits), r, strtod);
    } else if bits != 0 {
      ReadsWord(stack, false, INFINITY, Imm(VT_INFINITE, 0), r, strtod);
    } else {
      assert MINUS_INFINITY + r == [MINUS] + (INFINITY + r);
      One(m, MINUS, INFINITY + r, strtod);
      assert [MINUS] + INFINITY == MINUS_INFINITY;
      assert ([PLUS] + INFINITY)[0] == PLUS && MINUS_INFINITY[0] == MINUS;
      assert LiteralValue(MINUS_INFINITY) == Some(Imm(VT_INFINITE, 1));
      ReadsWord(stack, true, INFINITY, Imm(VT_INFINITE, 1), r, strtod);
    }
  }

  // ---------- containers ----------

  lemma {:induction false} FlipElemsAt(elems: seq<Value>, n: nat, i: nat)
    requires i < n <= |elems|
    ensures FlipElems(elems, n)[i] == Flip(elems[i])
  {
    if i < n - 1 { FlipElemsAt(elems, n - 1, i); }
  }

  lemma {:induction false} FlipPairsAt(pairs: seq<Pair>, n: nat, i: nat)
    requires i < n <= |pairs|
    ensures FlipPairs(pairs, n)[i] == Pair(pairs[i].name, Flip(pairs[i].value))
  {
    if i < n - 1 { FlipPairsAt(pairs, n - 1, i); }
  }

  /** A value inside a container is read up to its terminator. */
  lemma {:induction false} ReadsInner(stack: seq<Frame>, v: Value, r: Name, show: Show, strtod: StrToD)
    requires Plain(v) && NoOwnText(v) && Terminates(r)
    ensures Rest(Machine(Element, false, UNDEF, stack), Inner(v, show) + r, strtod)
         == Rest(Machine(Element, false, Flip(v), stack), r, strtod)
    decreases v, 0
  {
    hide Rest, Terminates, PlainText;
    match v
    case Imm(tag, bits) => ReadsLeaf(stack, tag, bits, r, show, strtod);
    case Str(_, bytes) => ReadsQuoted(stack, bytes, r, strtod);
    case Arr(_) => ReadsContainer(stack, v, r, show, strtod);
    case Obj(_) => ReadsContainer(stack, v, r, show, strtod);
  }

  /** A container is read up to its closing bracket, whatever follows. */
  lemma {:induction false} ReadsContainer(stack: seq<Frame>, v: Value, r: Name, show: Show, strtod: StrToD)
    requires (v.Arr? || v.Obj?) && Plain(v) && NoOwnText(v)
    ensures Rest(Machine(Element, false, UNDEF, stack), Text(v, show) + r, strtod)
         == Rest(Machine(Element, false, Flip(v), stack), r, strtod)
    decreases v, 0, 0
  {
    hide Rest, PlainText, ElemsText, PairsText;
    var m := Machine(Element, false, UNDEF, stack);
    if v.Arr? {
      var t := ElemsText(v.elems, 0, show) + ([RIGHT_BRACKET] + r);
      assert Text(v, show) + r == [LEFT_BRACKET] + t;
      One(m, LEFT_BRACKET, t, strtod);
      ReadsElems(stack, v.elems, 0, r, show, strtod);
    } else {
      var t := PairsText(v.pairs, 0, show) + ([RIGHT_BRACE] + r);
      assert Text(v, show) + r == [LEFT_BRACE] + t;
      One(m, LEFT_BRACE, t, strtod);
      ReadsPairs(stack, v.pairs, 0, r, show, strtod);
    }
  }

  function OpenElems(stack: seq<Frame>, elems: seq<Value>, i: nat): Machine
    requires i <= |elems|
  {
    Machine(Element, false, UNDEF, stack + [Frame(UNDEF, Arr(FlipElems(elems, i)))])
  }

  lemma {:induction false} ReadsElems(stack: seq<Frame>, elems: seq<Value>, i: nat, r: Name, show: Show, strtod: StrToD)
    requires i <= |elems| && Plain(Arr(elems)) && NoOwnText(Arr(elems)) && (i == |elems| ==> i == 0)
    ensures Rest(OpenElems(stack, elems, i), ElemsText(elems, i, show) + ([RIGHT_BRACKET] + r), strtod)
         == Rest(Machine(Element, false, Arr(FlipElems(elems, |elems|)), stack), r, strtod)
    decreases elems, |elems| - i, 1
  {
    hide Rest, PlainText, Inner, Plain, NoOwnText, Flip;
    var m := OpenElems(stack, elems, i);
    assert m.stack[..|stack|] == stack;
    if i == |elems| {
      Empty([RIGHT_BRACKET] + r);
      One(m, RIGHT_BRACKET, r, strtod);
    } else {
      PartsPlain(elems, i);
      var rest := Separator(i, |elems|) + ElemsText(elems, i + 1, show) + ([RIGHT_BRACKET] + r);
      assert ElemsText(elems, i, show) + ([RIGHT_BRACKET] + r) == Inner(elems[i], show) + rest;
      ReadsInner(m.stack, elems[i], rest, show, strtod);
      var m1 := m.(next := Flip(elems[i]));
      if i + 1 < |elems| {
        assert rest == [COMMA] + (ElemsText(elems, i + 1, show) + ([RIGHT_BRACKET] + r));
        One(m1, COMMA, ElemsText(elems, i + 1, show) + ([RIGHT_BRACKET] + r), strtod);
        assert TurnOf(m1, COMMA, strtod).m.stack == OpenElems(stack, elems, i + 1).stack;
        ReadsElems(stack, elems, i + 1, r, show, strtod);
      } else {
        assert rest == [RIGHT_BRACKET] + r;
        One(m1, RIGHT_BRACKET, r, strtod);
      }
    }
  }

  lemma {:induction false} PartsPlain(elems: seq<Value>, i: nat)
    requires i < |elems| && Plain(Arr(elems)) && NoOwnText(Arr(elems))
    ensures Plain(elems[i]) && NoOwnText(elems[i]) && !IsUndef(elems[i])
    ensures !IsUndef(Flip(elems[i]))
  {
  }

  lemma {:induction false} PairPlain(pairs: seq<Pair>, i: nat)
    requires i < |pairs| && Plain(Obj(pairs)) && NoOwnText(Obj(pairs))
    ensures Plain(pairs[i].value) && NoOwnText(pairs[i].value) && PlainText(pairs[i].name)
    ensures !IsUndef(Flip(pairs[i].value))
    ensures Put(FlipPairs(pairs, i), pairs[i].name, Flip(pairs[i].value)) == FlipPairs(pairs, i + 1)
  {
    PutFresh(FlipPairs(pairs, i), pairs[i].name, Flip(pairs[i].value));
  }

  function OpenPairs(stack: seq<Frame>, pairs: seq<Pair>, i: nat): Machine
    requires i <= |pairs|
  {
    Machine(Element, false, UNDEF, stack + [Frame(UNDEF, Obj(FlipPairs(pairs, i)))])
  }

  lemma {:induction false} ReadsPairs(stack: seq<Frame>, pairs: seq<Pair>, i: nat, r: Name, show: Show, strtod: StrToD)
    requires i <= |pairs| && Plain(Obj(pairs)) && NoOwnText(Obj(pairs)) && (i == |pairs| ==> i == 0)
    ensures Rest(OpenPairs(stack, pairs, i), PairsText(pairs, i, show) + ([RIGHT_BRACE] + r), strtod)
         == Rest(Machine(Element, false, Obj(FlipPairs(pairs, |pairs|)), stack), r, strtod)
    decreases pairs, |pairs| - i, 1
  {
    hide Rest, PlainText, Inner, Plain, NoOwnText, Flip, FlipPairs, Put, Quoted;
    var m := OpenPairs(stack, pairs, i);
    assert m.stack[..|stack|] == stack;
    if i == |pairs| {
      Empty([RIGHT_BRACE] + r);
      One(m, RIGHT_BRACE, r, strtod);
    } else {
      PairPlain(pairs, i);
      var name, value := pairs[i].name, pairs[i].value;
      var after := PairsText(pairs, i + 1, show) + ([RIGHT_BRACE] + r);
      var rest := Separator(i, |pairs|) + after;
      PairSplits(pairs, i, r, show);
      ReadsQuoted(m.stack, name, [COLON] + (Inner(value, show) + rest), strtod);
      One(m.(next := Str(KString, name)), COLON, Inner(value, show) + rest, strtod);
      var m1 := m.(stack := stack + [Frame(Str(KString, name), Obj(FlipPairs(pairs, i)))]);
      assert TurnOf(m.(next := Str(KString, name)), COLON, strtod) == Go(m1);
      ReadsInner(m1.stack, value, rest, show, strtod);
      var m2 := m1.(next := Flip(value));
      assert m2.stack[..|stack|] == stack;
      if i + 1 < |pairs| {
        One(m2, COMMA, after, strtod);
        assert TurnOf(m2, COMMA, strtod).m.stack == OpenPairs(stack, pairs, i + 1).stack;
        ReadsPairs(stack, pairs, i + 1, r, show, strtod);
      } else {
        assert rest == [RIGHT_BRACE] + r;
        One(m2, RIGHT_BRACE, r, strtod);
      }
    }
  }

  lemma {:induction false} PairSplits(pairs: seq<Pair>, i: nat, r: Name, show: Show)
    requires i < |pairs|
    ensures var rest := Separator(i, |pairs|) + (PairsText(pairs, i + 1, show) + ([RIGHT_BRACE] + r));
            PairsText(pairs, i, show) + ([RIGHT_BRACE] + r)
            == Quoted(pairs[i].name) + ([COLON] + (Inner(pairs[i].value, show) + rest))
  {
    hide Inner, Quoted;
    var a, b := Inner(pairs[i].value, show), Separator(i, |pairs|) + PairsText(pairs, i + 1, show);
    var e := [RIGHT_BRACE] + r;
    assert PairsText(pairs, i, show) == Quoted(pairs[i].name) + ([COLON] + (a + b));
    assert Quoted(pairs[i].name) + ([COLON] + (a + b)) + e == Quoted(pairs[i].name) + ([COLON] + (a + b) + e);
    assert [COLON] + (a + b) + e == [COLON] + (a + (b + e));
    assert b + e == Separator(i, |pairs|) + (PairsText(pairs, i + 1, show) + e);
  }
}
