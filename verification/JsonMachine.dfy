/** The parser's character machine: what each state does with the next character or the end. */
module JsonMachine {
  import opened Probing
  import opened MarshalImage
  import opened PairVectors
  import opened Decimal
  import opened JsonPrint
  import opened ObjectTable

  const EOF := -1
  const SLASH := 47
  const DOT := 46
  const BUFF_SIZE := 64

  /** js_strtod on text that is not just digits is not part of this model. */
  type StrToD = Name -> (nat, int)

  /** An open container with the property name read for its next value. */
  datatype Frame = Frame(name: Value, value: Value)

  datatype Mode =
    | Element
    | Literal(buff: Name)
    | Number(buff: Name)
    | InString(buff: Name, quot: bool)

  datatype Machine = Machine(mode: Mode, negative: bool, next: Value, stack: seq<Frame>)

  /** Fault: the source looks at the last container of an empty stack. */
  datatype Turn = Go(m: Machine) | Done(value: Value) | Error | Fault

  const START := Machine(Element, false, UNDEF, [])

  predicate IsAlpha(ch: int) { 65 <= ch <= 90 || 97 <= ch <= 122 }

  predicate IsSpace(ch: int) { ch == 32 || ch == 9 || ch == 10 || ch == 13 }

  /** Characters that may continue a number. */
  predicate InNumber(ch: int) {
    IsDigit(ch) || ch == 101 || ch == 69 || ch == PLUS || ch == MINUS || ch == DOT
  }

  /** Characters that end a number. */
  predicate EndsNumber(ch: int) { ch == COMMA || ch == RIGHT_BRACE || ch == RIGHT_BRACKET || ch == EOF }

  /** Characters allowed after a backslash; all stand for themselves in the result. */
  predicate Escapable(ch: int) {
    || ch == QUOTE || ch == SLASH || ch == BACKSLASH
    || ch == 98 || ch == 102 || ch == 110 || ch == 114 || ch == 116
  }

  function Numeral(buff: Name, strtod: StrToD): (v: Value)
    requires |buff| > 0
    ensures v.Imm?
  {
    if AllDigits(buff[1..]) then
      var f := Fraction(buff[1..]);
      Imm(VT_INT, if buff[0] == MINUS then Wrap64(-f) else f)
    else
      var (tag, bits) := strtod(buff);
      Imm(tag, bits)
  }

  function LiteralValue(buff: Name): (v: Option<Value>)
    ensures v.Some? ==> v.value.Imm?
  {
    if buff == NULL then Some(Imm(VT_NULL, 0))
    else if buff == TRUE then Some(Imm(VT_BOOL, 1))
    else if buff == NAN then Some(Imm(VT_NAN, 0))
    else if buff == INFINITY then Some(Imm(VT_INFINITE, 0))
    else if buff == [PLUS] + INFINITY then Some(Imm(VT_INFINITE, 0))
    else if buff == MINUS_INFINITY then Some(Imm(VT_INFINITE, 1))
    else if buff == FALSE then Some(Imm(VT_BOOL, 0))
    else None
  }

  /** appendElement */
  function AppendElement(f: Frame, v: Value): Option<Frame> {
    match f.value
    case Obj(pairs) =>
      if f.name.Str? then Some(Frame(UNDEF, Obj(Put(pairs, f.name.bytes, v)))) else None
    case Arr(elems) => Some(Frame(f.name, Arr(elems + [v])))
    case _ => None
  }

  function CloseTurn(m: Machine, ch: int): (t: Turn)
    ensures t.Go? ==> t.m.mode.Element?
  {
    if |m.stack| == 0 then Error else
    var top, rest := m.stack[|m.stack| - 1], m.stack[..|m.stack| - 1];
    if top.value.Obj? && ch != RIGHT_BRACE then Error
    else if top.value.Arr? && ch != RIGHT_BRACKET then Error
    else if IsUndef(m.next) then Go(Machine(Element, m.negative, top.value, rest))
    else match AppendElement(top, m.next)
      case None => Error
      case Some(f) => Go(Machine(Element, m.negative, f.value, rest))
  }

  /** How a token's buffer starts. */
  predicate Opens(mode: Mode) {
    match mode
    case Element => true
    case Literal(buff) => |buff| <= 2
    case Number(buff) => |buff| == 2
    case InString(buff, quot) => buff == [] && !quot
  }

  function ElementTurn(m: Machine, ch: int): (t: Turn)
    requires EOF <= ch < 256
    ensures ch == EOF ==> !t.Go?
    ensures t.Go? ==> Opens(t.m.mode)
  {
    var n := |m.stack|;
    if IsSpace(ch) then Go(m.(mode := Element))
    else if ch == MINUS then
      if m.negative then Error else Go(m.(mode := Element, negative := true))
    else if IsDigit(ch) then
      if !IsUndef(m.next) then Error
      else Go(m.(mode := Number([if m.negative then MINUS else PLUS, ch]), negative := false))
    else if ch == QUOTE then
      if !IsUndef(m.next) then Error
      else Go(m.(mode := InString([], false), next := Str(KString, [])))
    else if ch == LEFT_BRACKET then
      if !IsUndef(m.next) then Error
      else Go(m.(mode := Element, stack := m.stack + [Frame(UNDEF, Arr([]))]))
    else if ch == LEFT_BRACE then
      if !IsUndef(m.next) then Error
      else Go(m.(mode := Element, stack := m.stack + [Frame(UNDEF, Obj([]))]))
    else if ch == COLON then
      if n == 0 || !m.stack[n - 1].value.Obj? || !m.next.Str? then Error
      else Go(Machine(Element, m.negative, UNDEF, m.stack[n - 1 := m.stack[n - 1].(name := m.next)]))
    else if ch == EOF then
      if n > 0 then Error else Done(m.next)
    else if ch == RIGHT_BRACE || ch == RIGHT_BRACKET then CloseTurn(m, ch)
    else if ch == COMMA then
      if IsUndef(m.next) then Error
      else if n == 0 then Fault
      else match AppendElement(m.stack[n - 1], m.next)
        case None => Error
        case Some(f) => Go(Machine(Element, m.negative, UNDEF, m.stack[n - 1 := f]))
    else
      Go(m.(mode := Literal(if m.negative then [MINUS, ch] else [ch]), negative := false))
  }

  /** The turn after a number or a literal has ended at `ch`: it is the next value. */
  function EndTurn(m: Machine, v: Value, ch: int): Turn
    requires EOF <= ch < 256
  {
    ElementTurn(m.(mode := Element, next := v), ch)
  }

  function LiteralTurn(m: Machine, ch: int): (t: Turn)
    requires m.mode.Literal? && EOF <= ch < 256
    ensures ch == EOF ==> !t.Go?
  {
    var buff := m.mode.buff;
    if ch == EOF then Error
    else if IsAlpha(ch) then
      if |buff| < BUFF_SIZE then Go(m.(mode := Literal(buff + [ch]))) else Error
    else match LiteralValue(buff)
      case None => Error
      case Some(v) => EndTurn(m, v, ch)
  }

  function NumberTurn(m: Machine, ch: int, strtod: StrToD): (t: Turn)
    requires m.mode.Number? && |m.mode.buff| >= 2 && EOF <= ch < 256
    ensures ch == EOF ==> !t.Go?
  {
    var buff := m.mode.buff;
    if |buff| == 2 && buff[1] == ZERO_DIGIT && ch == ZERO_DIGIT then Error
    else if EndsNumber(ch) then EndTurn(m, Numeral(buff, strtod), ch)
    else if InNumber(ch) && |buff| < BUFF_SIZE then Go(m.(mode := Number(buff + [ch])))
    else Error
  }

  function Cat(v: Value, s: Name): Value { if v.Str? then Str(v.kind, v.bytes + s) else v }

  function TextTurn(m: Machine, ch: int): (t: Turn)
    requires m.mode.InString? && EOF <= ch < 256
    ensures ch == EOF ==> !t.Go?
  {
    var buff := m.mode.buff;
    if m.mode.quot && !Escapable(ch) then Error
    else if ch == EOF then Error
    else if !m.mode.quot && ch == BACKSLASH then Go(m.(mode := InString(buff, true)))
    else if m.mode.quot || ch != QUOTE then
      if |buff| == BUFF_SIZE then Go(m.(mode := InString([ch], false), next := Cat(m.next, buff)))
      else Go(m.(mode := InString(buff + [ch], false)))
    else Go(m.(mode := Element, next := Cat(m.next, buff)))
  }

  predicate Runs(m: Machine) { m.mode.Number? ==> |m.mode.buff| >= 2 }

  function TurnOf(m: Machine, ch: int, strtod: StrToD): (t: Turn)
    requires Runs(m) && EOF <= ch < 256
    ensures ch == EOF ==> !t.Go?
    ensures t.Go? ==> Runs(t.m)
  {
    match m.mode
    case Element => ElementTurn(m, ch)
    case Literal(_) => LiteralTurn(m, ch)
    case Number(_) => NumberTurn(m, ch, strtod)
    case InString(_, _) => TextTurn(m, ch)
  }

  /** The outcome of the run from `m` over the rest of the text. */
  function Rest(m: Machine, s: Name, strtod: StrToD): (t: Turn)
    requires Runs(m)
    ensures !t.Go?
    decreases |s|
  {
    var t := TurnOf(m, if |s| == 0 then EOF else s[0], strtod);
    if t.Go? then Rest(t.m, s[1..], strtod) else t
  }

  /** jsonParse of a string. */
  function Parse(s: Name, strtod: StrToD): Turn { Rest(START, s, strtod) }
}
