/** jsonParse itself: one loop over the characters, a fixed buffer and a container stack. */
module JsonParse {
  import opened Probing
  import opened MarshalImage
  import opened PairVectors
  import opened Decimal
  import opened JsonPrint
  import opened JsonMachine
  import opened ObjectTable

  datatype State = JsonElement | JsonLiteral | JsonNumber | JsonString | JsonEnd

  /** The machine a state of the loop stands for. */
  function Abs(state: State, negative: bool, quot: bool, buff: Name, next: Value, stack: seq<Frame>): Machine {
    var mode := match state
      case JsonElement => Element
      case JsonEnd => Element
      case JsonLiteral => Literal(buff)
      case JsonNumber => Number(buff)
      case JsonString => InString(buff, quot);
    Machine(mode, negative, next, stack)
  }

  /** The outcome after a turn with `s` left to read. */
  function Follow(t: Turn, s: Name, strtod: StrToD): Turn
    requires t.Go? ==> Runs(t.m)
  {
    if t.Go? then Rest(t.m, s, strtod) else t
  }

  /** The outcome from here: at the end of a number or literal its last character is taken again. */
  function Outcome(m: Machine, state: State, ch: int, s: Name, strtod: StrToD): Turn
    requires Runs(m) && EOF <= ch < 256
  {
    if state.JsonEnd? then Follow(ElementTurn(m, ch), s, strtod) else Rest(m, s, strtod)
  }

  function Now(state: State, m: Machine, ch: int, strtod: StrToD): (t: Turn)
    requires Runs(m) && EOF <= ch < 256
    ensures t.Go? ==> Runs(t.m)
  {
    if state.JsonEnd? then ElementTurn(m, ch) else TurnOf(m, ch, strtod)
  }

  lemma {:induction false} NextTurn(state: State, m: Machine, text: Name, off: nat, strtod: StrToD)
    requires Runs(m) && off <= |text| && !state.JsonEnd?
    ensures var ch := if off < |text| then text[off] else EOF;
            var off' := if off < |text| then off + 1 else off;
            Outcome(m, state, ch, text[off..], strtod) == Follow(Now(state, m, ch, strtod), text[off'..], strtod)
  {
    if off < |text| {
      assert text[off..][1..] == text[off + 1..];
    }
  }

  /** The `jsonElement` case of the switch. */
  method ElementCase(ch: int, negative: bool, next: Value, stack: seq<Frame>) returns (t: Turn)
    requires EOF <= ch < 256
    ensures t == ElementTurn(Machine(Element, negative, next, stack), ch)
  {
    if IsSpace(ch) {
      return Go(Machine(Element, negative, next, stack));
    }
    if ch == MINUS {
      if negative {
        return Error;
      }
      return Go(Machine(Element, true, next, stack));
    }
    if IsDigit(ch) {
      if !IsUndef(next) {
        return Error;
      }
      var sign := PLUS;
      if negative {
        sign := MINUS;
      }
      return Go(Machine(Number([sign, ch]), false, next, stack));
    }
    if ch == QUOTE {
      if !IsUndef(next) {
        return Error;
      }
      return Go(Machine(InString([], false), negative, Str(KString, []), stack));
    }
    if ch == LEFT_BRACKET || ch == LEFT_BRACE {
      if !IsUndef(next) {
        return Error;
      }
      var pair := Frame(UNDEF, if ch == LEFT_BRACKET then Arr([]) else Obj([]));
      return Go(Machine(Element, negative, next, stack + [pair]));
    }
    var n := |stack|;
    if ch == COLON {
      if n == 0 || !stack[n - 1].value.Obj? {
        return Error;
      }
      if !next.Str? {
        return Error;
      }
      return Go(Machine(Element, negative, UNDEF, stack[n - 1 := stack[n - 1].(name := next)]));
    }
    if ch == EOF {
      if n > 0 {
        return Error;
      }
      return Done(next);
    }
    if ch == RIGHT_BRACE || ch == RIGHT_BRACKET {
      if n == 0 {
        return Error;
      }
      var pair := stack[n - 1];
      if (pair.value.Obj? && ch != RIGHT_BRACE) || (pair.value.Arr? && ch != RIGHT_BRACKET) {
        return Error;
      }
      if !IsUndef(next) {
        var appended := AppendElement(pair, next);
        if appended.None? {
          return Error;
        }
        pair := appended.value;
      }
      return Go(Machine(Element, negative, pair.value, stack[..n - 1]));
    }
    if ch == COMMA {
      if IsUndef(next) {
        return Error;
      }
      if n == 0 {
        return Fault;
      }
      var appended := AppendElement(stack[n - 1], next);
      if appended.None? {
        return Error;
      }
      return Go(Machine(Element, negative, UNDEF, stack[n - 1 := appended.value]));
    }
    t := Go(Machine(Literal(if negative then [MINUS, ch] else [ch]), false, next, stack));
  }

  /** The `jsonLiteral` case: another letter, or the end of the literal. */
  method LiteralCase(ch: int, buff: array<Byte>, len: nat, next: Value, ghost m: Machine)
      returns (state: State, len': nat, next': Value, ok: bool)
    requires EOF <= ch < 256 && len <= buff.Length == BUFF_SIZE && m.mode == Literal(buff[..len]) && m.next == next
    modifies buff
    ensures len' <= BUFF_SIZE && (ch == EOF ==> !ok)
    ensures !ok ==> LiteralTurn(m, ch) == Error
    ensures ok && state.JsonLiteral? ==> LiteralTurn(m, ch) == Go(m.(mode := Literal(buff[..len']), next := next'))
    ensures ok && !state.JsonLiteral? ==> state.JsonEnd? && LiteralTurn(m, ch) == EndTurn(m, next', ch)
  {
    hide EndTurn, LiteralValue;
    state, len', next', ok := JsonLiteral, len, next, true;
    if ch == EOF {
      ok := false;
      return;
    }
    if IsAlpha(ch) {
      if len < BUFF_SIZE {
        buff[len] := ch;
        len' := len + 1;
        assert buff[..len'] == old(buff[..len]) + [ch];
        return;
      }
      ok := false;
      return;
    }
    var literal := LiteralValue(buff[..len]);
    if literal.None? {
      ok := false;
      return;
    }
    next' := literal.value;
    state := JsonEnd;
  }

  /** The `jsonNumber` case. */
  method NumberCase(ch: int, buff: array<Byte>, len: nat, next: Value, ghost m: Machine, strtod: StrToD)
      returns (state: State, len': nat, next': Value, ok: bool)
    requires EOF <= ch < 256 && 2 <= len <= buff.Length == BUFF_SIZE && m.mode == Number(buff[..len]) && m.next == next
    modifies buff
    ensures len <= len' <= BUFF_SIZE && (ch == EOF && ok ==> state.JsonEnd?)
    ensures !ok ==> NumberTurn(m, ch, strtod) == Error
    ensures ok && state.JsonNumber? ==> NumberTurn(m, ch, strtod) == Go(m.(mode := Number(buff[..len']), next := next'))
    ensures ok && !state.JsonNumber? ==> state.JsonEnd? && NumberTurn(m, ch, strtod) == EndTurn(m, next', ch)
  {
    hide EndTurn, Numeral;
    state, len', next', ok := JsonNumber, len, next, true;
    if len == 2 && buff[1] == ZERO_DIGIT && ch == ZERO_DIGIT {
      ok := false;
      return;
    }
    if EndsNumber(ch) {
      next' := Numeral(buff[..len], strtod);
      state := JsonEnd;
      return;
    }
    if InNumber(ch) {
      if len < BUFF_SIZE {
        buff[len] := ch;
        len' := len + 1;
        assert buff[..len'] == old(buff[..len]) + [ch];
        return;
      }
    }
    ok := false;
  }

  /** The `jsonString` case: a full buffer goes to the end of the string so far. */
  method StringCase(ch: int, buff: array<Byte>, len: nat, quot: bool, next: Value, ghost m: Machine)
      returns (state: State, len': nat, quot': bool, next': Value, ok: bool)
    requires EOF <= ch < 256 && len <= buff.Length == BUFF_SIZE && m.mode == InString(buff[..len], quot) && m.next == next
    modifies buff
    ensures len' <= BUFF_SIZE && (ch == EOF ==> !ok) && (quot' ==> state.JsonString?)
    ensures !ok ==> TextTurn(m, ch) == Error
    ensures ok && state.JsonString? ==> TextTurn(m, ch) == Go(m.(mode := InString(buff[..len'], quot'), next := next'))
    ensures ok && !state.JsonString? ==> state.JsonElement? && TextTurn(m, ch) == Go(m.(mode := Element, next := next'))
  {
    hide Cat;
    state, len', quot', next', ok := JsonString, len, quot, next, true;
    if (quot && !Escapable(ch)) || ch == EOF {
      quot', ok := false, false;
      return;
    }
    if !quot && ch == BACKSLASH {
      quot' := true;
      return;
    }
    if quot || ch != QUOTE {
      quot' := false;
      if len == BUFF_SIZE {
        next' := Cat(next, buff[..len]);
        len' := 0;
      }
      buff[len'] := ch;
      len' := len' + 1;
      assert buff[..len'] == if len == BUFF_SIZE then [ch] else old(buff[..len]) + [ch];
      return;
    }
    next' := Cat(next, buff[..len]);
    state := JsonElement;
  }

  /** jsonParse */
  method JsonParse(text: Name, strtod: StrToD) returns (t: Turn)
    ensures t == Parse(text, strtod)
  {
    hide Rest, ElementTurn, LiteralTurn, NumberTurn, TextTurn;
    var state := JsonElement;
    var stack: seq<Frame> := [];
    var negative, quot := false, false;
    var off, len, ch := 0, 0, 0;
    var buff := new Byte[BUFF_SIZE];
    var next := UNDEF;
    while true
      invariant 0 <= off <= |text| && EOF <= ch < 256 && 0 <= len <= BUFF_SIZE
      invariant Runs(Abs(state, negative, quot, buff[..len], next, stack))
      invariant quot ==> state.JsonString?
      invariant state.JsonEnd? && ch != EOF ==> off > 0
      invariant ch == EOF ==> off == |text|
      invariant Outcome(Abs(state, negative, quot, buff[..len], next, stack), state, ch, text[off..], strtod) == Parse(text, strtod)
      decreases |text| - (if state.JsonEnd? && ch != EOF then off - 1 else off), if state.JsonEnd? then 0 else 1
    {
      ghost var m := Abs(state, negative, quot, buff[..len], next, stack);
      if !state.JsonEnd? {
        NextTurn(state, m, text, off, strtod);
        if off < |text| {
          ch := text[off];
          off := off + 1;
        } else {
          ch := EOF;
        }
      }
      var ok;
      match state {
        case JsonLiteral =>
          state, len, next, ok := LiteralCase(ch, buff, len, next, m);
        case JsonString =>
          state, len, quot, next, ok := StringCase(ch, buff, len, quot, next, m);
        case JsonNumber =>
          state, len, next, ok := NumberCase(ch, buff, len, next, m, strtod);
        case JsonEnd | JsonElement =>
          t := ElementCase(ch, negative, next, stack);
          if !t.Go? {
            return;
          }
          ok, state, negative, next, stack := true, StateOf(t.m.mode), t.m.negative, t.m.next, t.m.stack;
          if !t.m.mode.Element? {
            len := Fill(buff, t.m.mode.buff);
          }
      }
      if !ok {
        return Error;
      }
    }
  }

  /** Starts a token. */
  method Fill(buff: array<Byte>, s: Name) returns (len: nat)
    requires |s| <= 2 <= buff.Length
    modifies buff
    ensures len == |s| && buff[..len] == s
  {
    len := |s|;
    if len > 0 {
      buff[0] := s[0];
    }
    if len > 1 {
      buff[1] := s[1];
    }
  }

  function StateOf(mode: Mode): State {
    match mode
    case Element => JsonElement
    case Literal(_) => JsonLiteral
    case Number(_) => JsonNumber
    case InString(_, _) => JsonString
  }
}
