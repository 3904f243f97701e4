/**
 JavaScript values as trees and the text JSON.stringify makes of them (section 25.5.2 of ECMA-262,
 sections 4 and 7 of RFC 8259): strings are sequences of UTF-16 code units, numbers carry the text that
 Number::toString gives them. The text is proved unambiguous: equal texts come from equal trees.
 */
module JsonText {
  type CodeUnit = x: int | 0 <= x < 0x1_0000
  type JsString = seq<CodeUnit>

  /** A text of ASCII characters. */
  function Ascii(s: string): JsString
    requires forall k :: 0 <= k < |s| ==> s[k] < 128 as char
  {
    seq(|s|, k requires 0 <= k < |s| => s[k] as int)
  }

  const QUOTE: CodeUnit := 0x22
  const BACKSLASH: CodeUnit := 0x5c
  const COMMA: CodeUnit := 0x2c
  const COLON: CodeUnit := 0x3a
  const OPEN_BRACKET: CodeUnit := 0x5b
  const CLOSE_BRACKET: CodeUnit := 0x5d
  const OPEN_BRACE: CodeUnit := 0x7b
  const CLOSE_BRACE: CodeUnit := 0x7d
  const MINUS: CodeUnit := 0x2d
  const LOWER_U: CodeUnit := 0x75
  const NEWLINE: CodeUnit := 0x0a

  const NULL_TEXT: JsString := [0x6e, 0x75, 0x6c, 0x6c]
  const TRUE_TEXT: JsString := [0x74, 0x72, 0x75, 0x65]
  const FALSE_TEXT: JsString := [0x66, 0x61, 0x6c, 0x73, 0x65]
  const ZERO_TEXT: JsString := [0x30]

  // ---- values ------------------------------------------------------------------------------------

  /** A finite number other than -0 is told apart from every other by its text. */
  datatype JsNumber = NaN | Infinity(negative: bool) | NegativeZero | Finite(text: JsString)

  datatype Js =
    | Undefined
    | Null
    | Bool(b: bool)
    | Num(n: JsNumber)
    | Str(s: JsString)
    | Arr(items: seq<Js>)
    | Obj(props: seq<Prop>)

  datatype Prop = Prop(key: JsString, value: Js)

  predicate IsDigit(u: CodeUnit) {
    0x30 <= u <= 0x39
  }

  /** What Number::toString uses: digits, point, exponent sign and letter. */
  predicate IsNumeralUnit(u: CodeUnit) {
    IsDigit(u) || u == MINUS || u == 0x2e || u == 0x65 || u == 0x2b
  }

  predicate IsNumeral(s: JsString) {
    && s != []
    && (IsDigit(s[0]) || s[0] == MINUS)
    && forall k :: 0 <= k < |s| ==> IsNumeralUnit(s[k])
  }

  // ---- strings -----------------------------------------------------------------------------------

  predicate IsHighSurrogate(u: CodeUnit) {
    0xd800 <= u <= 0xdbff
  }

  predicate IsLowSurrogate(u: CodeUnit) {
    0xdc00 <= u <= 0xdfff
  }

  function HexDigit(d: int): CodeUnit
    requires 0 <= d < 16
  {
    if d < 10 then 0x30 + d else 0x61 + d - 10
  }

  function UnicodeEscape(u: CodeUnit): (r: JsString)
    ensures |r| == 6 && r[0] == BACKSLASH && r[1] == LOWER_U
  {
    [BACKSLASH, LOWER_U, HexDigit(u / 4096), HexDigit(u / 256 % 16), HexDigit(u / 16 % 16), HexDigit(u % 16)]
  }

  /** The letter of a two-unit escape, or 0 for a unit that has none. */
  function ShortEscape(u: CodeUnit): CodeUnit {
    if u == QUOTE then QUOTE
    else if u == BACKSLASH then BACKSLASH
    else if u == 0x08 then 0x62
    else if u == 0x09 then 0x74
    else if u == 0x0a then 0x6e
    else if u == 0x0c then 0x66
    else if u == 0x0d then 0x72
    else 0
  }

  /** Whether the string starts with a surrogate pair, which stands for one code point. */
  predicate StartsWithPair(s: JsString) {
    |s| >= 2 && IsHighSurrogate(s[0]) && IsLowSurrogate(s[1])
  }

  /** How many units the first code point takes. */
  function FirstLength(s: JsString): nat
    requires s != []
  {
    if StartsWithPair(s) then 2 else 1
  }

  /** The text of the first code point inside the quotes. */
  function FirstText(s: JsString): JsString
    requires s != []
  {
    var u := s[0];
    if ShortEscape(u) != 0 then [BACKSLASH, ShortEscape(u)]
    else if StartsWithPair(s) then s[..2]
    else if u < 0x20 || IsHighSurrogate(u) || IsLowSurrogate(u) then UnicodeEscape(u)
    else [u]
  }

  function Escaped(s: JsString): JsString {
    if s == [] then [] else FirstText(s) + Escaped(s[FirstLength(s)..])
  }

  function Quoted(s: JsString): JsString {
    [QUOTE] + Escaped(s) + [QUOTE]
  }

  // ---- values to text ----------------------------------------------------------------------------

  /** A tree that has a JSON text as it stands: nothing undefined, every number finite. */
  predicate Printable(v: Js)
    decreases v, 1
  {
    match v
    case Undefined => false
    case Num(n) => n.Finite? && IsNumeral(n.text)
    case Arr(items) => PrintableItems(items)
    case Obj(props) => PrintableProps(props)
    case _ => true
  }

  predicate PrintableItems(items: seq<Js>)
    decreases items, 0
  {
    items == [] || (Printable(items[0]) && PrintableItems(items[1..]))
  }

  predicate PrintableProps(props: seq<Prop>)
    decreases props, 0
  {
    props == [] || (Printable(props[0].value) && PrintableProps(props[1..]))
  }

  function Text(v: Js): JsString
    requires Printable(v)
    decreases v, 1
  {
    match v
    case Null => NULL_TEXT
    case Bool(b) => if b then TRUE_TEXT else FALSE_TEXT
    case Num(n) => n.text
    case Str(s) => Quoted(s)
    case Arr(items) => [OPEN_BRACKET] + ItemsText(items) + [CLOSE_BRACKET]
    case Obj(props) => [OPEN_BRACE] + PropsText(props) + [CLOSE_BRACE]
  }

  function ItemsText(items: seq<Js>): JsString
    requires PrintableItems(items)
    decreases items, 0
  {
    if items == [] then []
    else Text(items[0]) + (if |items| == 1 then [] else [COMMA] + ItemsText(items[1..]))
  }

  function PropsText(props: seq<Prop>): JsString
    requires PrintableProps(props)
    decreases props, 0
  {
    if props == [] then []
    else Quoted(props[0].key) + [COLON] + Text(props[0].value) +
         (if |props| == 1 then [] else [COMMA] + PropsText(props[1..]))
  }
}
