/** When parsing the printed text gives the value back, exactly. */
module JsonExact {
  import opened Probing
  import opened MarshalImage
  import opened PairVectors
  import opened Decimal
  import opened Sequences
  import opened JsonPrint
  import opened JsonMachine
  import opened JsonRoundTrip
  import opened JsonCounting

  // ---------- infinities ----------

  predicate HasInfinite(v: Value)
    decreases v
  {
    match v
    case Imm(tag, _) => tag == VT_INFINITE
    case Str(_, _) => false
    case Arr(elems) => exists i | 0 <= i < |elems| :: HasInfinite(elems[i])
    case Obj(pairs) => exists i | 0 <= i < |pairs| :: HasInfinite(pairs[i].value)
  }

  lemma {:induction false} FlipExactly(v: Value)
    ensures Flip(v) == v <==> !HasInfinite(v)
    decreases v
  {
    match v
    case Imm(_, _) =>
    case Str(_, _) =>
    case Arr(elems) =>
      var f := FlipElems(elems, |elems|);
      forall i | 0 <= i < |elems| ensures f[i] == Flip(elems[i]) && (f[i] == elems[i] <==> !HasInfinite(elems[i])) {
        FlipElemsAt(elems, |elems|, i);
        FlipExactly(elems[i]);
      }
      if !HasInfinite(v) { assert f == elems; }
    case Obj(pairs) =>
      var f := FlipPairs(pairs, |pairs|);
      forall i | 0 <= i < |pairs|
        ensures f[i] == Pair(pairs[i].name, Flip(pairs[i].value))
        ensures f[i] == pairs[i] <==> !HasInfinite(pairs[i].value)
      {
        FlipPairsAt(pairs, |pairs|, i);
        FlipExactly(pairs[i].value);
      }
      if !HasInfinite(v) { assert f == pairs; }
  }

  // ---------- the whole ----------

  /** A literal at the top level is not finished when the text ends. */
  lemma {:induction false} BareWordFails(tag: nat, bits: int, show: Show, strtod: StrToD)
    requires PlainLeaf(tag, bits) && tag != VT_INT
    ensures Parse(LeafText(Imm(tag, bits), show), strtod) == Error
  {
    hide Rest, LiteralValue;
    var text := LeafText(Imm(tag, bits), show);
    var m, s := START, text;
    if text[0] == MINUS {
      s := INFINITY;
      assert text == [MINUS] + s;
      One(m, MINUS, s, strtod);
      m := Machine(Element, true, UNDEF, []);
    }
    First(s, []);
    assert s + [] == s;
    One(m, s[0], s[1..], strtod);
    var m1 := TurnOf(m, s[0], strtod).m;
    assert m1.mode.Literal? && |m1.mode.buff| <= 2;
    assert s[1..] + [] == s[1..];
    ReadsLetters(m1, s[1..], [], strtod);
    EndsInLiteral(m1.(mode := Literal(m1.mode.buff + s[1..])), strtod);
  }

  lemma {:induction false} EndsInLiteral(m: Machine, strtod: StrToD)
    requires m.mode.Literal?
    ensures Rest(m, [], strtod) == Error
  {
  }

  lemma {:induction false} EndsInElement(v: Value, strtod: StrToD)
    ensures Rest(Machine(Element, false, v, []), [], strtod) == Done(v)
  {
  }

  /** The printed text of a container reads back as the container, its infinities exchanged. */
  lemma {:induction false} ContainerReadsBack(v: Value, show: Show, strtod: StrToD)
    requires (v.Arr? || v.Obj?) && Plain(v) && NoOwnText(v)
    ensures Parse(Text(v, show), strtod) == Done(Flip(v))
  {
    hide Rest, Text, Flip;
    ReadsContainer([], v, [], show, strtod);
    assert Text(v, show) + [] == Text(v, show);
    EndsInElement(Flip(v), strtod);
  }

  /** What comes back when an object prints its own text, or a string prints unquoted, is something else. */
  lemma {:induction false} HiddenTextLost(v: Value, show: Show, strtod: StrToD)
    requires Plain(v) && (v.Str? || !NoOwnText(v))
    ensures Parse(Text(v, show), strtod) != Done(v)
  {
    hide Rest, Text, Plain, NoOwnText, Regular, NoMarks;
    PlainExactly(v);
    ParsedCost(START, Text(v, show), strtod, Pairs);
    TextCoins(v, show, Pairs);
    LeavesOrNot(v);
  }

  lemma {:induction false} LeavesOrNot(v: Value)
    ensures v.Imm? ==> NoOwnText(v)
  {
  }

  /** A quote or a backslash anywhere in the tree: there are not enough backslashes to get it back. */
  lemma {:induction false} MarksLost(v: Value, show: Show, strtod: StrToD)
    requires Regular(v) && !NoMarks(v)
    ensures Parse(Text(v, show), strtod) != Done(v)
  {
    hide Rest, Text, Plain, NoOwnText, Regular, NoMarks, Tally;
    SameCoins(Text(v, show));
    NothingPaid();
    ParsedCost(START, Text(v, show), strtod, Escapes);
    TextCoins(v, show, Slashes);
    MarksCost(v);
  }

  lemma {:induction false} NothingPaid()
    ensures Paid(START, Escapes) == 0
  {
  }

  lemma {:induction false} SameCoins(s: Name)
    ensures Coins(s, Escapes) == Coins(s, Slashes)
  {
    if |s| > 0 { SameCoins(s[1..]); }
  }

  /**
   JSON.parse(JSON.stringify(v)) gives `v` back exactly for integers and containers in which no
   string or name has a quote or a backslash, no number is infinite, and no object has its own
   property `toString`.
   */
  lemma {:induction false} RoundTripExactly(v: Value, show: Show, strtod: StrToD)
    requires Regular(v)
    ensures Parse(Text(v, show), strtod) == Done(v)
       <==> (v.Arr? || v.Obj? || (v.Imm? && v.tag == VT_INT)) && NoMarks(v) && NoOwnText(v) && !HasInfinite(v)
  {
    hide Rest, Text, NoOwnText, Flip, Plain, Regular, NoMarks, HasInfinite;
    PlainExactly(v);
    FlipExactly(v);
    if !NoMarks(v) {
      MarksLost(v, show, strtod);
    } else if v.Str? || !NoOwnText(v) {
      HiddenTextLost(v, show, strtod);
    } else if v.Imm? {
      LeafAlone(v, show, strtod);
      LeafFinite(v);
    } else {
      ContainerReadsBack(v, show, strtod);
    }
  }

  lemma {:induction false} LeafFinite(v: Value)
    ensures v.Imm? && v.tag == VT_INT ==> !HasInfinite(v)
  {
  }

  /** A string in an array comes back exactly when it has no quote and no backslash. */
  lemma {:induction false} QuotesBreakText(s: Name, show: Show, strtod: StrToD)
    ensures var v := Arr([Str(KString, s)]);
            Parse(Text(v, show), strtod) == Done(v) <==> PlainText(s)
  {
    hide Rest, Text, PlainText;
    var e := Str(KString, s);
    var v := Arr([e]);
    assert [e][0] == e;
    assert NoOwnText(e) && Regular(e) && !HasInfinite(e) && (NoMarks(e) <==> PlainText(s));
    RoundTripExactly(v, show, strtod);
  }

  lemma {:induction false} LeafAlone(v: Value, show: Show, strtod: StrToD)
    requires Plain(v) && v.Imm?
    ensures Parse(Text(v, show), strtod) == if v.tag == VT_INT then Done(v) else Error
  {
    hide Rest, IntText;
    if v.tag == VT_INT {
      ReadsInt([], v.bits, [], strtod);
      assert IntText(v.bits) + [] == IntText(v.bits);
      EndsInElement(v, strtod);
    } else {
      BareWordFails(v.tag, v.bits, show, strtod);
    }
  }
}
