/**
 Counting characters: what a text holds bounds what can be parsed from it. Every string and name
 costs two quotes; every quote or backslash inside one costs a backslash before it.
 */
module JsonCounting {
  import opened Probing
  import opened MarshalImage
  import opened PairVectors
  import opened Decimal
  import opened JsonPrint
  import opened JsonMachine
  import opened JsonRoundTrip

  /** Pairs: two quotes a token. Escapes: the backslashes that marks need. Slashes: the backslashes there are. */
  datatype Count = Pairs | Escapes | Slashes

  function Coin(ch: int, c: Count): nat {
    if c.Pairs? then (if ch == QUOTE then 1 else 0) else if ch == BACKSLASH then 1 else 0
  }

  /** What a text holds. */
  function Coins(s: Name, c: Count): nat {
    if |s| == 0 then 0 else Coin(s[0], c) + Coins(s[1..], c)
  }

  /** The backslashes it takes to get a string into the parser: a backslash costs itself and one more. */
  function Marks(s: Name): nat {
    if |s| == 0 then 0 else (if s[0] == QUOTE then 1 else if s[0] == BACKSLASH then 2 else 0) + Marks(s[1..])
  }

  /** What a string or a name costs. */
  function Fee(s: Name, c: Count): nat {
    match c
    case Pairs => 2
    case Escapes => Marks(s)
    case Slashes => Coins(s, c)
  }

  lemma {:induction false} CoinsCat(a: Name, b: Name, c: Count)
    ensures Coins(a + b, c) == Coins(a, c) + Coins(b, c)
  {
    if |a| == 0 {
      assert a + b == b;
    } else {
      assert (a + b)[1..] == a[1..] + b;
      CoinsCat(a[1..], b, c);
    }
  }

  lemma {:induction false} MarksCat(a: Name, b: Name)
    ensures Marks(a + b) == Marks(a) + Marks(b)
  {
    if |a| == 0 {
      assert a + b == b;
    } else {
      assert (a + b)[1..] == a[1..] + b;
      MarksCat(a[1..], b);
    }
  }

  lemma {:induction false} NoCoins(s: Name, c: Count)
    requires forall i | 0 <= i < |s| :: Coin(s[i], c) == 0
    ensures Coins(s, c) == 0
  {
    if |s| > 0 { NoCoins(s[1..], c); }
  }

  /** What the strings and names of a tree cost. */
  function Tally(v: Value, c: Count): nat
    decreases v
  {
    match v
    case Imm(_, _) => 0
    case Str(_, bytes) => Fee(bytes, c)
    case Arr(elems) => ElemsTally(elems, c)
    case Obj(pairs) => PairsTally(pairs, c)
  }

  function ElemsTally(elems: seq<Value>, c: Count): nat
    decreases elems
  {
    if |elems| == 0 then 0 else Tally(elems[0], c) + ElemsTally(elems[1..], c)
  }

  function PairsTally(pairs: seq<Pair>, c: Count): nat
    decreases pairs
  {
    if |pairs| == 0 then 0 else Fee(pairs[0].name, c) + Tally(pairs[0].value, c) + PairsTally(pairs[1..], c)
  }

  lemma {:induction false} ElemsTallyPush(elems: seq<Value>, v: Value, c: Count)
    ensures ElemsTally(elems + [v], c) == ElemsTally(elems, c) + Tally(v, c)
  {
    if |elems| == 0 {
      assert elems + [v] == [v] && [v][1..] == [];
    } else {
      assert (elems + [v])[1..] == elems[1..] + [v];
      ElemsTallyPush(elems[1..], v, c);
    }
  }

  lemma {:induction false} PutTally(pairs: seq<Pair>, name: Name, v: Value, c: Count)
    ensures PairsTally(Put(pairs, name, v), c) <= PairsTally(pairs, c) + Fee(name, c) + Tally(v, c)
  {
    hide Fee;
    var r := Put(pairs, name, v);
    if |pairs| == 0 {
      assert r[1..] == [];
    } else if pairs[0].name == name {
      assert r[1..] == pairs[1..];
    } else {
      assert r[1..] == Put(pairs[1..], name, v);
      PutTally(pairs[1..], name, v, c);
    }
  }

  // ---------- the parser's side ----------

  function StackTally(stack: seq<Frame>, c: Count): nat {
    if |stack| == 0 then 0
    else
      var f := stack[|stack| - 1];
      StackTally(stack[..|stack| - 1], c) + Tally(f.name, c) + Tally(f.value, c)
  }

  predicate InToken(m: Machine) { m.mode.InString? ==> m.next.Str? }

  /** Inside a string: the closing quote is still to come, or the buffer is, and a backslash may be paid ahead. */
  function Pending(mode: Mode, c: Count): int {
    match mode
    case InString(buff, quot) =>
      if c.Pairs? then -1 else Marks(buff) + if quot then 1 else 0
    case _ => 0
  }

  /** What has been paid for. */
  function Paid(m: Machine, c: Count): int {
    Tally(m.next, c) + StackTally(m.stack, c) + Pending(m.mode, c)
  }

  predicate Affordable(t: Turn, c: Count, paid: int) {
    match t
    case Go(m) => InToken(m) && Paid(m, c) <= paid
    case Done(v) => Tally(v, c) <= paid
    case _ => true
  }

  lemma {:induction false} AppendTally(f: Frame, v: Value, c: Count)
    ensures var f' := AppendElement(f, v);
            f'.Some? ==>
              Tally(f'.value.name, c) + Tally(f'.value.value, c) <= Tally(f.name, c) + Tally(f.value, c) + Tally(v, c)
  {
    hide Fee;
    match f.value
    case Obj(pairs) => if f.name.Str? { PutTally(pairs, f.name.bytes, v, c); }
    case Arr(elems) => ElemsTallyPush(elems, v, c);
    case _ =>
  }

  lemma {:induction false} StackLast(stack: seq<Frame>, f: Frame, c: Count)
    ensures StackTally(stack + [f], c) == StackTally(stack, c) + Tally(f.name, c) + Tally(f.value, c)
    ensures stack != [] ==>
              var n := |stack| - 1;
              && StackTally(stack[n := f], c) == StackTally(stack[..n], c) + Tally(f.name, c) + Tally(f.value, c)
              && StackTally(stack, c) == StackTally(stack[..n], c) + Tally(stack[n].name, c) + Tally(stack[n].value, c)
  {
    assert (stack + [f])[..|stack|] == stack;
    if stack != [] { assert (stack[|stack| - 1 := f])[..|stack| - 1] == stack[..|stack| - 1]; }
  }

  lemma {:induction false} CloseCost(m: Machine, ch: int, c: Count)
    ensures Affordable(CloseTurn(m, ch), c, Tally(m.next, c) + StackTally(m.stack, c))
  {
    hide AppendElement, StackTally;
    var n := |m.stack|;
    if n > 0 {
      var f := m.stack[n - 1];
      AppendTally(f, m.next, c);
      StackLast(m.stack, f, c);
    }
  }

  /** Small values cost what they cost; an empty container costs nothing. */
  lemma {:induction false} SmallTally(c: Count)
    ensures Tally(UNDEF, c) == 0 && Tally(Arr([]), c) == 0 && Tally(Obj([]), c) == 0
    ensures Tally(Str(KString, []), c) == if c.Pairs? then 2 else 0
  {
  }

  lemma {:induction false} ElementCost(m: Machine, ch: int, c: Count)
    requires EOF <= ch < 256 && !c.Slashes?
    ensures Affordable(ElementTurn(m, ch), c, Tally(m.next, c) + StackTally(m.stack, c) + Coin(ch, c))
  {
    hide AppendElement, StackTally, CloseTurn, Tally;
    var n, stack := |m.stack|, m.stack;
    SmallTally(c);
    if ch == LEFT_BRACKET || ch == LEFT_BRACE {
      StackLast(stack, Frame(UNDEF, if ch == LEFT_BRACKET then Arr([]) else Obj([])), c);
    } else if ch == RIGHT_BRACE || ch == RIGHT_BRACKET {
      CloseCost(m, ch, c);
    } else if n > 0 {
      var f := stack[n - 1];
      AppendTally(f, m.next, c);
      StackLast(stack, f.(name := m.next), c);
      var f' := AppendElement(f, m.next);
      if f'.Some? { StackLast(stack, f'.value, c); }
    }
  }

  lemma {:induction false} StringCost(m: Machine, ch: int, c: Count)
    requires m.mode.InString? && InToken(m) && EOF <= ch < 256 && !c.Slashes?
    ensures Affordable(TextTurn(m, ch), c, Paid(m, c) + Coin(ch, c))
  {
    hide StackTally;
    var buff := m.mode.buff;
    MarksCat(m.next.bytes, buff);
    if ch >= 0 {
      MarksCat(buff, [ch]);
      assert [ch][1..] == [];
    }
  }

  lemma {:induction false} TurnCost(m: Machine, ch: int, strtod: StrToD, c: Count)
    requires Runs(m) && InToken(m) && EOF <= ch < 256 && !c.Slashes?
    ensures Affordable(TurnOf(m, ch, strtod), c, Paid(m, c) + Coin(ch, c))
  {
    hide ElementTurn, LiteralValue, Numeral, StackTally, TextTurn;
    match m.mode
    case Element => ElementCost(m, ch, c);
    case InString(_, _) => StringCost(m, ch, c);
    case Number(buff) => ElementCost(m.(mode := Element, next := Numeral(buff, strtod)), ch, c);
    case Literal(buff) =>
      if LiteralValue(buff).Some? {
        ElementCost(m.(mode := Element, next := LiteralValue(buff).value), ch, c);
      }
  }

  /** A parsed value costs no more than the text holds. */
  lemma {:induction false} ParsedCost(m: Machine, s: Name, strtod: StrToD, c: Count)
    requires Runs(m) && InToken(m) && !c.Slashes?
    ensures var t := Rest(m, s, strtod); t.Done? ==> Tally(t.value, c) <= Paid(m, c) + Coins(s, c)
    decreases |s|
  {
    hide TurnOf, Paid, Tally, InToken;
    var ch := if |s| == 0 then EOF else s[0];
    TurnCost(m, ch, strtod, c);
    var t := TurnOf(m, ch, strtod);
    if t.Go? { ParsedCost(t.m, s[1..], strtod, c); }
  }

  // ---------- the printers' side ----------

  /** What the printed text of a tree is counted for. */
  ghost predicate Counted(v: Value, c: Count) {
    Regular(v) && !c.Escapes? && (c.Pairs? ==> Plain(v))
  }

  /** The text holds what the tree costs, less where an object's own text hides some of it. */
  lemma {:induction false} TextCoins(v: Value, show: Show, c: Count)
    requires Counted(v, c)
    ensures v.Str? && c.Pairs? ==> Coins(Text(v, show), c) == 0
    ensures Coins(Text(v, show), c) <= Tally(v, c) && Coins(Inner(v, show), c) <= Tally(v, c)
    ensures !NoOwnText(v) && c.Pairs? ==> Coins(Inner(v, show), c) < Tally(v, c)
    decreases v, 0
  {
    hide Digits, NoOwnText, PlainText;
    match v
    case Imm(tag, bits) =>
      LeafCoins(tag, bits, show, c);
      LeavesOrdinary(v);
    case Str(_, bytes) =>
      StringCoins(bytes, c);
      LeavesOrdinary(v);
    case Arr(elems) =>
      ElemsCoins(elems, 0, show, c);
      Bracketed(LEFT_BRACKET, ElemsText(elems, 0, show), RIGHT_BRACKET, c);
      assert elems[0..] == elems;
      ElemsOrdinary(elems);
    case Obj(pairs) => ObjectCoins(pairs, show, c);
  }

  lemma {:induction false} LeavesOrdinary(v: Value)
    requires v.Imm? || v.Str?
    ensures NoOwnText(v)
  {
  }

  lemma {:induction false} ElemsOrdinary(elems: seq<Value>)
    ensures NoOwnText(Arr(elems)) <==> forall i | 0 <= i < |elems| :: NoOwnText(elems[i])
  {
  }

  lemma {:induction false} LeafCoins(tag: nat, bits: int, show: Show, c: Count)
    requires PlainLeaf(tag, bits)
    ensures Coins(LeafText(Imm(tag, bits), show), c) == 0
  {
    NoCoins(LeafText(Imm(tag, bits), show), c);
  }

  lemma {:induction false} Bracketed(open: Byte, s: Name, close: Byte, c: Count)
    requires Coin(open, c) == 0 && Coin(close, c) == 0
    ensures Coins([open] + s + [close], c) == Coins(s, c)
  {
    CoinsCat([open] + s, [close], c);
    CoinsCat([open], s, c);
    NoCoins([open], c);
    NoCoins([close], c);
  }

  lemma {:induction false} StringCoins(s: Name, c: Count)
    requires !c.Escapes? && (c.Pairs? ==> PlainText(s))
    ensures Coins(Quoted(s), c) == Fee(s, c) && Coins(s, c) <= Fee(s, c) && (c.Pairs? ==> Coins(s, c) == 0)
  {
    if c.Pairs? {
      NoCoins(s, c);
      CoinsCat([QUOTE] + s, [QUOTE], c);
      CoinsCat([QUOTE], s, c);
      assert [QUOTE][1..] == [];
    } else {
      Bracketed(QUOTE, s, QUOTE, c);
    }
  }

  lemma {:induction false} SeparatorCoins(i: nat, n: nat, c: Count)
    ensures Coins(Separator(i, n), c) == 0
  {
    NoCoins(Separator(i, n), c);
  }

  lemma {:induction false} ElemsCoins(elems: seq<Value>, i: nat, show: Show, c: Count)
    requires i <= |elems| && forall j | i <= j < |elems| :: Counted(elems[j], c)
    ensures Coins(ElemsText(elems, i, show), c) <= ElemsTally(elems[i..], c)
    ensures c.Pairs? && (exists j | i <= j < |elems| :: !NoOwnText(elems[j]))
        ==> Coins(ElemsText(elems, i, show), c) < ElemsTally(elems[i..], c)
    decreases elems, |elems| - i
  {
    hide Inner, Counted, NoOwnText, Separator, Tally;
    if i < |elems| {
      TextCoins(elems[i], show, c);
      ElemsCoins(elems, i + 1, show, c);
      var rest := ElemsText(elems, i + 1, show);
      CoinsCat(Inner(elems[i], show), Separator(i, |elems|) + rest, c);
      CoinsCat(Separator(i, |elems|), rest, c);
      SeparatorCoins(i, |elems|, c);
      assert elems[i..][1..] == elems[i + 1..];
    }
  }

  lemma {:induction false} PairsCoins(pairs: seq<Pair>, i: nat, show: Show, c: Count)
    requires i <= |pairs| && !c.Escapes? && forall j | i <= j < |pairs| :: Counted(pairs[j].value, c)
    requires c.Pairs? ==> forall j | i <= j < |pairs| :: PlainText(pairs[j].name)
    ensures Coins(PairsText(pairs, i, show), c) <= PairsTally(pairs[i..], c)
    ensures c.Pairs? && (exists j | i <= j < |pairs| :: !NoOwnText(pairs[j].value))
        ==> Coins(PairsText(pairs, i, show), c) < PairsTally(pairs[i..], c)
    decreases pairs, |pairs| - i
  {
    hide Inner, Counted, NoOwnText, Separator, Tally, PlainText, Quoted, Fee;
    if i < |pairs| {
      var name, value := pairs[i].name, pairs[i].value;
      TextCoins(value, show, c);
      PairsCoins(pairs, i + 1, show, c);
      StringCoins(name, c);
      var rest := PairsText(pairs, i + 1, show);
      var inner := Inner(value, show) + (Separator(i, |pairs|) + rest);
      CoinsCat(Quoted(name), [COLON] + inner, c);
      CoinsCat([COLON], inner, c);
      NoCoins([COLON], c);
      CoinsCat(Inner(value, show), Separator(i, |pairs|) + rest, c);
      CoinsCat(Separator(i, |pairs|), rest, c);
      SeparatorCoins(i, |pairs|, c);
      assert pairs[i..][1..] == pairs[i + 1..];
    }
  }

  /** The value of a pair costs no more than all pairs. */
  lemma {:induction false} PairTally(pairs: seq<Pair>, i: nat, c: Count)
    requires i < |pairs|
    ensures Fee(pairs[i].name, c) + Tally(pairs[i].value, c) <= PairsTally(pairs, c)
  {
    hide Fee, Tally;
    if i > 0 { PairTally(pairs[1..], i - 1, c); }
  }

  lemma {:induction false} ObjectCoins(pairs: seq<Pair>, show: Show, c: Count)
    requires Counted(Obj(pairs), c)
    ensures Coins(Text(Obj(pairs), show), c) <= PairsTally(pairs, c)
    ensures !NoOwnText(Obj(pairs)) && c.Pairs? ==> Coins(Text(Obj(pairs), show), c) < PairsTally(pairs, c)
    decreases pairs, |pairs| + 1
  {
    hide PlainText;
    var own := Find(pairs, TO_STRING);
    if own.Str? {
      var i :| 0 <= i < |pairs| && pairs[i] == Pair(TO_STRING, own);
      assert Counted(pairs[i].value, c);
      StringCoins(own.bytes, c);
      PairTally(pairs, i, c);
    } else {
      PairsCoins(pairs, 0, show, c);
      Bracketed(LEFT_BRACE, PairsText(pairs, 0, show), RIGHT_BRACE, c);
      assert pairs[0..] == pairs;
    }
  }

  // ---------- backslashes there are, and backslashes it takes ----------

  lemma {:induction false} SlashesShort(s: Name)
    ensures Marks(s) >= 2 * Coins(s, Slashes)
    ensures Marks(s) == 0 <==> PlainText(s)
  {
    if |s| > 0 {
      SlashesShort(s[1..]);
      assert PlainText(s) <==> s[0] != QUOTE && s[0] != BACKSLASH && PlainText(s[1..]) by {
        if s[0] != QUOTE && s[0] != BACKSLASH && PlainText(s[1..]) {
          forall i | 0 <= i < |s| ensures s[i] != QUOTE && s[i] != BACKSLASH { if i > 0 { assert s[i] == s[1..][i - 1]; } }
        }
      }
    }
  }

  /** Marks need twice the backslashes that are among them, and a tree without marks needs none. */
  lemma {:induction false} MarksCost(v: Value)
    ensures Tally(v, Escapes) >= 2 * Tally(v, Slashes)
    ensures Tally(v, Escapes) == 0 <==> NoMarks(v)
    decreases v
  {
    hide PlainText, Marks;
    match v
    case Imm(_, _) =>
    case Str(_, bytes) => SlashesShort(bytes);
    case Arr(elems) => ElemsMarks(elems);
    case Obj(pairs) => PairsMarks(pairs);
  }

  lemma {:induction false} ElemsMarks(elems: seq<Value>)
    ensures ElemsTally(elems, Escapes) >= 2 * ElemsTally(elems, Slashes)
    ensures ElemsTally(elems, Escapes) == 0 <==> forall i | 0 <= i < |elems| :: NoMarks(elems[i])
    decreases elems
  {
    hide Tally, NoMarks;
    if |elems| > 0 {
      var rest := elems[1..];
      MarksCost(elems[0]);
      ElemsMarks(rest);
      assert forall i | 0 <= i < |rest| :: rest[i] == elems[i + 1];
      assert forall i | 0 < i < |elems| :: elems[i] == rest[i - 1];
    }
  }

  lemma {:induction false} PairsMarks(pairs: seq<Pair>)
    ensures PairsTally(pairs, Escapes) >= 2 * PairsTally(pairs, Slashes)
    ensures PairsTally(pairs, Escapes) == 0
       <==> forall i | 0 <= i < |pairs| :: PlainText(pairs[i].name) && NoMarks(pairs[i].value)
    decreases pairs
  {
    hide Tally, NoMarks, PlainText, Marks;
    if |pairs| > 0 {
      var rest := pairs[1..];
      SlashesShort(pairs[0].name);
      MarksCost(pairs[0].value);
      PairsMarks(rest);
      assert forall i | 0 <= i < |rest| :: rest[i] == pairs[i + 1];
      assert forall i | 0 < i < |pairs| :: pairs[i] == rest[i - 1];
    }
  }
}
