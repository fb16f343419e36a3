/** Exactly the texts on which the parser looks at the last container of an empty stack. */
module JsonFaults {
  import opened Probing
  import opened MarshalImage
  import opened PairVectors
  import opened Decimal
  import opened JsonPrint
  import opened JsonMachine
  import opened ObjectTable

  const SPACE: Byte := 32

  /** The turn that the characters of a text lead to, without its end. */
  function Feed(m: Machine, s: Name, strtod: StrToD): (t: Turn)
    requires Runs(m)
    ensures t.Go? ==> Runs(t.m)
    decreases |s|
  {
    if |s| == 0 then Go(m)
    else
      var t := TurnOf(m, s[0], strtod);
      if t.Go? then Feed(t.m, s[1..], strtod) else t
  }

  function AtEnd(t: Turn, strtod: StrToD): Turn
    requires t.Go? ==> Runs(t.m)
  {
    if t.Go? then TurnOf(t.m, EOF, strtod) else t
  }

  lemma {:induction false} RestFeeds(m: Machine, s: Name, strtod: StrToD)
    requires Runs(m)
    ensures Rest(m, s, strtod) == AtEnd(Feed(m, s, strtod), strtod)
    decreases |s|
  {
    hide TurnOf;
    if |s| > 0 {
      var t := TurnOf(m, s[0], strtod);
      if t.Go? { RestFeeds(t.m, s[1..], strtod); }
    }
  }

  lemma {:induction false} FeedOne(m: Machine, s: Name, ch: Byte, strtod: StrToD)
    requires Runs(m)
    ensures var t := Feed(m, s, strtod);
            Feed(m, s + [ch], strtod) == if t.Go? then TurnOf(t.m, ch, strtod) else t
    decreases |s|
  {
    hide TurnOf;
    if |s| == 0 {
      assert s + [ch] == [ch] && [ch][1..] == [];
    } else {
      assert (s + [ch])[1..] == s[1..] + [ch];
      var t := TurnOf(m, s[0], strtod);
      if t.Go? { FeedOne(t.m, s[1..], ch, strtod); }
    }
  }

  /** Once the run has stopped, more text makes no difference. */
  lemma {:induction false} FeedStops(m: Machine, s: Name, k: nat, strtod: StrToD)
    requires Runs(m) && k <= |s| && !Feed(m, s[..k], strtod).Go?
    ensures Feed(m, s, strtod) == Feed(m, s[..k], strtod)
    decreases |s|
  {
    hide TurnOf;
    if k > 0 {
      assert s[..k][1..] == s[1..][..k - 1];
      var t := TurnOf(m, s[0], strtod);
      if t.Go? { FeedStops(t.m, s[1..], k - 1, strtod); }
    }
  }

  lemma {:induction false} EndsOnlyAtEnd(m: Machine, ch: int, strtod: StrToD)
    requires Runs(m) && EOF <= ch < 256
    ensures TurnOf(m, ch, strtod).Done? ==> ch == EOF
    ensures TurnOf(m, ch, strtod).Fault? ==> ch == COMMA
  {
    hide LiteralValue, Numeral, AppendElement, Cat, ElementTurn;
    match m.mode
    case Element => ElementEnds(m, ch);
    case InString(_, _) =>
    case Number(buff) => ElementEnds(m.(mode := Element, next := Numeral(buff, strtod)), ch);
    case Literal(buff) =>
      if LiteralValue(buff).Some? { ElementEnds(m.(mode := Element, next := LiteralValue(buff).value), ch); }
  }

  lemma {:induction false} ElementEnds(m: Machine, ch: int)
    requires EOF <= ch < 256
    ensures ElementTurn(m, ch).Done? ==> ch == EOF
    ensures ElementTurn(m, ch).Fault? ==> ch == COMMA
  {
    hide AppendElement;
  }

  /** A value at the top level. */
  predicate TopValue(t: Turn) { t.Done? && !IsUndef(t.value) }

  /** A comma faults where the text could have ended, or could have ended after a space. */
  lemma {:induction false} CommaFaults(m: Machine, strtod: StrToD)
    requires Runs(m)
    ensures TurnOf(m, COMMA, strtod).Fault?
       <==> TopValue(TurnOf(m, EOF, strtod)) || TopValue(AtEnd(TurnOf(m, SPACE, strtod), strtod))
  {
    hide LiteralValue, Numeral, AppendElement, CloseTurn;
    match m.mode
    case Element =>
    case InString(_, _) =>
    case Number(buff) =>
    case Literal(buff) => LiteralDefined(buff);
  }

  lemma {:induction false} LiteralDefined(buff: Name)
    ensures LiteralValue(buff).Some? ==> !IsUndef(LiteralValue(buff).value)
  {
  }

  /** The text up to `k` is a whole value, and a comma follows. */
  predicate CommaAfterValue(x: Name, k: nat, strtod: StrToD) {
    && k < |x| && x[k] == COMMA
    && (TopValue(Parse(x[..k], strtod)) || TopValue(Parse(x[..k] + [SPACE], strtod)))
  }

  lemma {:induction false} CommaAt(x: Name, k: nat, strtod: StrToD)
    requires k < |x| && x[k] == COMMA
    ensures var t := Feed(START, x[..k], strtod);
            CommaAfterValue(x, k, strtod) <==> t.Go? && TurnOf(t.m, COMMA, strtod).Fault?
  {
    hide Rest, Feed, TurnOf, TopValue;
    var t := Feed(START, x[..k], strtod);
    RestFeeds(START, x[..k], strtod);
    RestFeeds(START, x[..k] + [SPACE], strtod);
    FeedOne(START, x[..k], SPACE, strtod);
    if t.Go? { CommaFaults(t.m, strtod); } else { NotDoneYet(START, x[..k], strtod); }
  }

  lemma {:induction false} NotDoneYet(m: Machine, s: Name, strtod: StrToD)
    requires Runs(m)
    ensures !TopValue(Feed(m, s, strtod))
    decreases |s|
  {
    hide TurnOf;
    if |s| > 0 {
      EndsOnlyAtEnd(m, s[0], strtod);
      var t := TurnOf(m, s[0], strtod);
      if t.Go? { NotDoneYet(t.m, s[1..], strtod); }
    }
  }

  /** The character at which the run faults. */
  lemma {:induction false} FaultAt(x: Name, n: nat, strtod: StrToD) returns (k: nat)
    requires n <= |x| && Feed(START, x[..n], strtod).Fault?
    ensures k < n && x[k] == COMMA
    ensures var t := Feed(START, x[..k], strtod); t.Go? && TurnOf(t.m, COMMA, strtod).Fault?
  {
    hide TurnOf;
    assert x[..n] == x[..n - 1] + [x[n - 1]];
    FeedOne(START, x[..n - 1], x[n - 1], strtod);
    var t := Feed(START, x[..n - 1], strtod);
    if t.Go? {
      EndsOnlyAtEnd(t.m, x[n - 1], strtod);
      k := n - 1;
    } else {
      k := FaultAt(x, n - 1, strtod);
    }
  }

  /** The parser faults exactly on the texts in which a comma follows a whole value. */
  lemma {:induction false} FaultExactly(x: Name, strtod: StrToD)
    ensures Parse(x, strtod).Fault? <==> exists k: nat :: CommaAfterValue(x, k, strtod)
  {
    hide Rest, Feed, TurnOf, CommaAfterValue;
    RestFeeds(START, x, strtod);
    var t := Feed(START, x, strtod);
    if t.Go? { EndsOnlyAtEnd(t.m, EOF, strtod); }
    if Parse(x, strtod).Fault? {
      assert x[..|x|] == x;
      var k := FaultAt(x, |x|, strtod);
      CommaAt(x, k, strtod);
    }
    if exists k: nat :: CommaAfterValue(x, k, strtod) {
      var k: nat :| CommaAfterValue(x, k, strtod);
      InText(x, k, strtod);
      CommaAt(x, k, strtod);
      FeedOne(START, x[..k], COMMA, strtod);
      assert x[..k] + [COMMA] == x[..k + 1];
      FeedStops(START, x, k + 1, strtod);
    }
  }

  lemma {:induction false} InText(x: Name, k: nat, strtod: StrToD)
    requires CommaAfterValue(x, k, strtod)
    ensures k < |x| && x[k] == COMMA
  {
  }
}
