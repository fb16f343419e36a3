/** The printers: the text of a value, as conv2Str and the two container printers append it. */
module JsonPrint {
  import opened Probing
  import opened MarshalImage
  import opened PairVectors
  import opened Decimal

  const QUOTE: Byte := 34
  const COMMA: Byte := 44
  const COLON: Byte := 58
  const LEFT_BRACKET: Byte := 91
  const BACKSLASH: Byte := 92
  const RIGHT_BRACKET: Byte := 93
  const LEFT_BRACE: Byte := 123
  const RIGHT_BRACE: Byte := 125

  const NULL: Name := [110, 117, 108, 108]                             // null
  const TRUE: Name := [116, 114, 117, 101]                             // true
  const FALSE: Name := [102, 97, 108, 115, 101]                        // false
  const NAN: Name := [78, 97, 78]                                      // NaN
  const INFINITY: Name := [73, 110, 102, 105, 110, 105, 116, 121]      // Infinity
  const MINUS_INFINITY: Name := [45, 73, 110, 102, 105, 110, 105, 116, 121]
  const TO_STRING: Name := [116, 111, 83, 116, 114, 105, 110, 103]     // toString

  /** How other types print is not part of this model. */
  type Show = Value -> Name

  /** The text of a value without children; the two infinities are printed the wrong way around. */
  function LeafText(v: Value, show: Show): Name {
    match v
    case Str(KString, bytes) => bytes
    case Imm(tag, bits) =>
      if tag == VT_NULL then NULL
      else if tag == VT_BOOL then if bits != 0 then TRUE else FALSE
      else if tag == VT_INT then IntText(bits)
      else if tag == VT_NAN then NAN
      else if tag == VT_INFINITE then if bits != 0 then INFINITY else MINUS_INFINITY
      else show(v)
    case _ => show(v)
  }

  function Quoted(s: Name): Name { [QUOTE] + s + [QUOTE] }

  /** An object prints as its own property `toString`, when it has one. */
  function Text(v: Value, show: Show): Name
    decreases v, 0
  {
    match v
    case Arr(elems) => [LEFT_BRACKET] + ElemsText(elems, 0, show) + [RIGHT_BRACKET]
    case Obj(pairs) =>
      var own := Find(pairs, TO_STRING);
      if own.Str? then own.bytes
      else [LEFT_BRACE] + PairsText(pairs, 0, show) + [RIGHT_BRACE]
    case _ => LeafText(v, show)
  }

  /** The text of a value inside a container. */
  function Inner(v: Value, show: Show): Name
    decreases v, 1
  {
    if v.Str? then Quoted(Text(v, show)) else Text(v, show)
  }

  function Separator(i: nat, n: nat): Name { if i + 1 < n then [COMMA] else [] }

  function ElemsText(elems: seq<Value>, i: nat, show: Show): Name
    requires i <= |elems|
    decreases elems, |elems| - i
  {
    if i == |elems| then []
    else Inner(elems[i], show) + (Separator(i, |elems|) + ElemsText(elems, i + 1, show))
  }

  function PairsText(pairs: seq<Pair>, i: nat, show: Show): Name
    requires i <= |pairs|
    decreases pairs, |pairs| - i
  {
    if i == |pairs| then []
    else Quoted(pairs[i].name) +
         ([COLON] + (Inner(pairs[i].value, show) + (Separator(i, |pairs|) + PairsText(pairs, i + 1, show))))
  }

  /** The printers read a property `toString` of any object as a string. */
  ghost predicate Printable(v: Value)
    decreases v
  {
    match v
    case Arr(elems) => forall i | 0 <= i < |elems| :: Printable(elems[i])
    case Obj(pairs) =>
      && (IsUndef(Find(pairs, TO_STRING)) || Find(pairs, TO_STRING).Str?)
      && forall i | 0 <= i < |pairs| :: Printable(pairs[i].value)
    case _ => true
  }

  /** conv2Str */
  method Conv2Str(v: Value, quote: bool, show: Show) returns (ans: Name)
    requires Printable(v)
    ensures ans == if quote then Quoted(Text(v, show)) else Text(v, show)
    decreases v, 1
  {
    match v {
      case Arr(elems) => ans := ArrayToString(v, show);
      case Obj(pairs) => ans := ToStringOf(v, show);
      case _ => ans := LeafText(v, show);
    }
    if quote {
      ans := [QUOTE] + ans + [QUOTE];
    }
  }

  /** The object's own `toString`, or else the one of its prototype. */
  method ToStringOf(v: Value, show: Show) returns (ans: Name)
    requires v.Obj? && Printable(v)
    ensures ans == Text(v, show)
    decreases v, 0, 1
  {
    var own := Find(v.pairs, TO_STRING);
    if own.Str? {
      ans := own.bytes;
    } else {
      ans := ObjectToString(v, show);
    }
  }

  /** fcnArrayToString */
  method ArrayToString(v: Value, show: Show) returns (ans: Name)
    requires v.Arr? && Printable(v)
    ensures ans == [LEFT_BRACKET] + ElemsText(v.elems, 0, show) + [RIGHT_BRACKET]
    decreases v, 0, 0
  {
    ans := [LEFT_BRACKET];
    var idx, cnt := 0, |v.elems|;
    while idx < cnt
      invariant idx <= cnt
      invariant ans + ElemsText(v.elems, idx, show) == [LEFT_BRACKET] + ElemsText(v.elems, 0, show)
    {
      ghost var was := ans;
      var s := Conv2Str(v.elems[idx], v.elems[idx].Str?, show);
      ans := ans + s;
      idx := idx + 1;
      if idx < cnt {
        ans := ans + [COMMA];
      }
      Appended(was, s, Separator(idx - 1, cnt), ElemsText(v.elems, idx, show), ans);
    }
    ans := ans + [RIGHT_BRACKET];
  }

  /** fcnObjectToString */
  method ObjectToString(v: Value, show: Show) returns (ans: Name)
    requires v.Obj? && Printable(v)
    ensures ans == [LEFT_BRACE] + PairsText(v.pairs, 0, show) + [RIGHT_BRACE]
    decreases v, 0, 0
  {
    hide PairsText, Find, Text, Separator;
    ans := [LEFT_BRACE];
    var idx, cnt := 0, |v.pairs|;
    while idx < cnt
      invariant idx <= cnt
      invariant ans + PairsText(v.pairs, idx, show) == [LEFT_BRACE] + PairsText(v.pairs, 0, show)
    {
      ghost var was := ans;
      ans := ans + [QUOTE] + v.pairs[idx].name + [QUOTE];
      ans := ans + [COLON];
      var s := Conv2Str(v.pairs[idx].value, v.pairs[idx].value.Str?, show);
      ans := ans + s;
      PairAppended(was, v.pairs, idx, s, show);
      idx := idx + 1;
      if idx < cnt {
        ans := ans + [COMMA];
      }
    }
    NoPairsLeft(v.pairs, show);
    ans := ans + [RIGHT_BRACE];
  }

  lemma {:induction false} Appended(was: Name, s: Name, separator: Name, rest: Name, ans: Name)
    requires ans == was + s + separator
    ensures ans + rest == was + (s + (separator + rest))
  {
  }

  lemma {:induction false} NoPairsLeft(pairs: seq<Pair>, show: Show)
    ensures forall ans: Name :: ans + PairsText(pairs, |pairs|, show) == ans
  {
  }

  lemma {:induction false} PairAppended(was: Name, pairs: seq<Pair>, i: nat, s: Name, show: Show)
    requires i < |pairs| && s == Inner(pairs[i].value, show)
    ensures var ans := was + [QUOTE] + pairs[i].name + [QUOTE] + [COLON] + s;
            (if i + 1 < |pairs| then ans + [COMMA] else ans) + PairsText(pairs, i + 1, show)
            == was + PairsText(pairs, i, show)
  {
    hide Inner, Text;
    Regrouped(was, pairs[i].name, s, Separator(i, |pairs|), PairsText(pairs, i + 1, show));
  }

  lemma {:induction false} Regrouped(was: Name, name: Name, s: Name, separator: Name, rest: Name)
    ensures var ans := was + [QUOTE] + name + [QUOTE] + [COLON] + s;
            ans + separator + rest == was + (Quoted(name) + ([COLON] + (s + (separator + rest))))
    ensures var ans := was + [QUOTE] + name + [QUOTE] + [COLON] + s; ans + [] == ans
  {
    assert was + [QUOTE] + name + [QUOTE] == was + Quoted(name);
    var colon := [COLON] + s;
    assert was + Quoted(name) + [COLON] + s == was + (Quoted(name) + colon);
    Appended(was, Quoted(name) + colon, separator, rest, was + (Quoted(name) + colon) + separator);
    var tail := separator + rest;
    assert Quoted(name) + colon + tail == Quoted(name) + (colon + tail);
    assert colon + tail == [COLON] + (s + tail);
  }
}
