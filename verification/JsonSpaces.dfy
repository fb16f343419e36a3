/** Whitespace between the tokens of a text. */
module JsonSpaces {
  import opened Probing
  import opened MarshalImage
  import opened PairVectors
  import opened Decimal
  import opened JsonPrint
  import opened JsonMachine
  import opened JsonFaults
  import opened ObjectTable

  /** Spaces, tabs, line feeds and carriage returns. */
  ghost predicate Blank(ws: Name) { forall i | 0 <= i < |ws| :: ws[i] == 32 || ws[i] == 9 || ws[i] == 10 || ws[i] == 13 }

  /** The run over a text is the run over its first part and then the run over the other. */
  lemma {:induction false} RestCat(m: Machine, a: Name, b: Name, strtod: StrToD)
    requires Runs(m)
    ensures var t := Feed(m, a, strtod);
            Rest(m, a + b, strtod) == if t.Go? then Rest(t.m, b, strtod) else t
    decreases |a|
  {
    hide TurnOf;
    if |a| == 0 {
      assert a + b == b;
    } else {
      assert (a + b)[1..] == a[1..] + b;
      var t := TurnOf(m, a[0], strtod);
      if t.Go? { RestCat(t.m, a[1..], b, strtod); }
    }
  }

  lemma {:induction false} BlankSkipped(m: Machine, ws: Name, b: Name, strtod: StrToD)
    requires m.mode.Element? && Blank(ws)
    ensures Rest(m, ws + b, strtod) == Rest(m, b, strtod)
    decreases |ws|
  {
    hide AppendElement, CloseTurn, NumberTurn, LiteralTurn, TextTurn;
    if |ws| == 0 {
      assert ws + b == b;
    } else {
      assert (ws + b)[1..] == ws[1..] + b;
      assert m.(mode := Element) == m;
      BlankSkipped(m, ws[1..], b, strtod);
    }
  }

  /** A literal ends at whitespace as it does at any other character that is not a letter. */
  lemma {:induction false} BlankEndsLiteral(m: Machine, ws: Name, b: Name, strtod: StrToD)
    requires m.mode.Literal? && Blank(ws) && |b| > 0 && !IsAlpha(b[0])
    ensures Rest(m, ws + b, strtod) == Rest(m, b, strtod)
  {
    hide AppendElement, CloseTurn, NumberTurn, TextTurn, LiteralValue, ElementTurn;
    if |ws| == 0 {
      assert ws + b == b;
    } else {
      assert (ws + b)[1..] == ws[1..] + b;
      var v := LiteralValue(m.mode.buff);
      if v.Some? {
        var m' := m.(mode := Element, next := v.value);
        BlankTurn(m', ws[0]);
        BlankSkipped(m', ws[1..], b, strtod);
      }
    }
  }

  lemma {:induction false} BlankTurn(m: Machine, ch: Byte)
    requires m.mode.Element? && Blank([ch])
    ensures ElementTurn(m, ch) == Go(m)
  {
    assert [ch][0] == ch;
  }

  /** The text before `k` ends between two tokens: outside of strings and numbers, and not inside a literal. */
  predicate BetweenTokens(x: Name, k: nat, strtod: StrToD)
    requires k <= |x|
  {
    var t := Feed(START, x[..k], strtod);
    t.Go? && (t.m.mode.Element? || (t.m.mode.Literal? && k < |x| && !IsAlpha(x[k])))
  }

  predicate InsideNumber(x: Name, k: nat, strtod: StrToD)
    requires k <= |x|
  {
    var t := Feed(START, x[..k], strtod);
    t.Go? && t.m.mode.Number?
  }

  /** Whitespace between tokens does not change what a text parses to. */
  lemma {:induction false} SpacesSkipped(x: Name, k: nat, ws: Name, strtod: StrToD)
    requires k <= |x| && Blank(ws) && BetweenTokens(x, k, strtod)
    ensures Parse(x[..k] + ws + x[k..], strtod) == Parse(x, strtod)
  {
    hide TurnOf, Rest, Feed;
    var t := Feed(START, x[..k], strtod);
    RestCat(START, x[..k], ws + x[k..], strtod);
    RestCat(START, x[..k], x[k..], strtod);
    assert x[..k] + (ws + x[k..]) == x[..k] + ws + x[k..] && x[..k] + x[k..] == x;
    if t.m.mode.Element? {
      BlankSkipped(t.m, ws, x[k..], strtod);
    } else {
      BlankEndsLiteral(t.m, ws, x[k..], strtod);
    }
  }

  /** Behind a number it does: a number ends at a comma, a closing bracket or the end of the text only. */
  lemma {:induction false} SpaceBreaksNumber(x: Name, k: nat, ws: Name, strtod: StrToD)
    requires k <= |x| && Blank(ws) && ws != [] && InsideNumber(x, k, strtod)
    ensures Parse(x[..k] + ws + x[k..], strtod) == Error
  {
    hide Rest, Feed, Numeral, AppendElement, LiteralValue, ElementTurn;
    var t := Feed(START, x[..k], strtod);
    RestCat(START, x[..k], ws + x[k..], strtod);
    assert x[..k] + (ws + x[k..]) == x[..k] + ws + x[k..];
    FirstTurn(t.m, ws + x[k..], strtod);
    assert (ws + x[k..])[0] == ws[0];
  }

  lemma {:induction false} FirstTurn(m: Machine, s: Name, strtod: StrToD)
    requires Runs(m) && |s| > 0
    ensures !TurnOf(m, s[0], strtod).Go? ==> Rest(m, s, strtod) == TurnOf(m, s[0], strtod)
  {
    hide TurnOf;
  }
}
