/**
 An independent reading of JSON text, after sections 3 to 7 of RFC 8259, for text without white space:
 what JSON.stringify is modelled to print is read back as the very tree it was printed from.
 */
module JsonReader {
  import opened Options
  import opened JsonText

  datatype Reading<T> = Reading(value: T, rest: JsString)

  function Unit(c: char): CodeUnit
    requires c < 128 as char
  {
    c as int
  }

  // ---- strings -----------------------------------------------------------------------------------

  /** The value of a hexadecimal digit, in either case. */
  function HexDigitValue(u: CodeUnit): (r: Option<int>)
    ensures r.Some? ==> 0 <= r.value < 16
  {
    if Unit('0') <= u <= Unit('9') then Some(u - Unit('0'))
    else if Unit('a') <= u <= Unit('f') then Some(u - Unit('a') + 10)
    else if Unit('A') <= u <= Unit('F') then Some(u - Unit('A') + 10)
    else None
  }

  /** What a backslash and one letter stand for. */
  function Unescaped(letter: CodeUnit): Option<CodeUnit> {
    if letter == Unit('"') || letter == Unit('\\') || letter == Unit('/') then Some(letter)
    else if letter == Unit('b') then Some(8)
    else if letter == Unit('t') then Some(9)
    else if letter == Unit('n') then Some(10)
    else if letter == Unit('f') then Some(12)
    else if letter == Unit('r') then Some(13)
    else None
  }

  /** The unit that four hexadecimal digits stand for. */
  function FourDigits(text: JsString): Option<CodeUnit>
    requires |text| == 4
  {
    var a, b, c, d := HexDigitValue(text[0]), HexDigitValue(text[1]), HexDigitValue(text[2]), HexDigitValue(text[3]);
    if a.Some? && b.Some? && c.Some? && d.Some?
    then Some(((a.value * 16 + b.value) * 16 + c.value) * 16 + d.value)
    else None
  }

  function Prefixed(u: CodeUnit, r: Option<Reading<JsString>>): (p: Option<Reading<JsString>>)
    ensures p.Some? ==> r.Some? && p.value.rest == r.value.rest
  {
    if r.Some? then Some(Reading([u] + r.value.value, r.value.rest)) else None
  }

  /** The string up to the closing quote. */
  function ReadString(text: JsString): (r: Option<Reading<JsString>>)
    ensures r.Some? ==> |r.value.rest| < |text|
    decreases |text|
  {
    if text == [] then None
    else if text[0] == Unit('"') then Some(Reading([], text[1..]))
    else if text[0] == Unit('\\') then
      if |text| >= 6 && text[1] == Unit('u') then
        var u := FourDigits(text[2..6]);
        if u.Some? then Prefixed(u.value, ReadString(text[6..])) else None
      else if |text| >= 2 && Unescaped(text[1]).Some? then Prefixed(Unescaped(text[1]).value, ReadString(text[2..]))
      else None
    else if text[0] >= 0x20 then Prefixed(text[0], ReadString(text[1..]))
    else None
  }

  lemma HexDigitReads(d: int)
    requires 0 <= d < 16
    ensures HexDigitValue(HexDigit(d)) == Some(d)
  {
  }

  lemma DigitsOf(u: int)
    requires 0 <= u < 0x1_0000
    ensures u == ((u / 4096 * 16 + u / 256 % 16) * 16 + u / 16 % 16) * 16 + u % 16
  {
    assert u / 16 / 16 == u / 256 && u / 256 / 16 == u / 4096;
  }

  lemma UnicodeEscapeReads(u: CodeUnit)
    ensures FourDigits(UnicodeEscape(u)[2..6]) == Some(u)
  {
    var text := UnicodeEscape(u)[2..6];
    HexDigitReads(u / 4096);
    HexDigitReads(u / 256 % 16);
    HexDigitReads(u / 16 % 16);
    HexDigitReads(u % 16);
    assert text == [HexDigit(u / 4096), HexDigit(u / 256 % 16), HexDigit(u / 16 % 16), HexDigit(u % 16)];
    DigitsOf(u);
  }

  /** The first code point of a string is read back, whichever way it was written. */
  lemma FirstReads(s: JsString, more: JsString)
    requires s != []
    ensures ReadString(FirstText(s) + more) ==
      if FirstLength(s) == 2 then Prefixed(s[0], Prefixed(s[1], ReadString(more))) else Prefixed(s[0], ReadString(more))
  {
    var u, text := s[0], FirstText(s) + more;
    if ShortEscape(u) != 0 {
      assert text[2..] == more;
    } else if StartsWithPair(s) {
      assert text[0] == s[0] && text[1..] == [s[1]] + more && (text[1..])[1..] == more;
    } else if u < 0x20 || IsHighSurrogate(u) || IsLowSurrogate(u) {
      UnicodeEscapeReads(u);
      assert text[2..6] == UnicodeEscape(u)[2..6] && text[6..] == more;
    } else {
      assert text[1..] == more;
    }
  }

  lemma Together(a: JsString, b: JsString, c: JsString)
    ensures (a + b) + c == a + (b + c)
  {
  }

  lemma FirstAndTail(s: JsString)
    requires s != []
    ensures var tail := s[FirstLength(s)..];
      s == if FirstLength(s) == 2 then [s[0]] + ([s[1]] + tail) else [s[0]] + tail
  {
  }

  /** A quoted string is read back. */
  lemma {:induction false} StringReads(s: JsString, rest: JsString)
    ensures ReadString(Escaped(s) + ([QUOTE] + rest)) == Some(Reading(s, rest))
    decreases |s|
  {
    var end := [QUOTE] + rest;
    if s == [] {
      assert Escaped(s) + end == end && end[1..] == rest;
    } else {
      var tail := s[FirstLength(s)..];
      Together(FirstText(s), Escaped(tail), end);
      StringReads(tail, rest);
      FirstReads(s, Escaped(tail) + end);
      FirstAndTail(s);
    }
  }

  // ---- values ------------------------------------------------------------------------------------

  predicate StartsNumber(u: CodeUnit) {
    u == Unit('-') || Unit('0') <= u <= Unit('9')
  }

  /** How many units from the start can belong to a number. */
  function NumberLength(text: JsString): (n: nat)
    ensures n <= |text|
  {
    if text != [] && (StartsNumber(text[0]) || text[0] in Ascii("+.eE")) then 1 + NumberLength(text[1..]) else 0
  }

  /** A fixed word at the start. */
  function ReadWord(text: JsString, word: JsString, v: Js): (r: Option<Reading<Js>>)
    requires word != []
    ensures r.Some? ==> |r.value.rest| < |text|
  {
    if word <= text then Some(Reading(v, text[|word|..])) else None
  }

  function ReadValue(text: JsString): (r: Option<Reading<Js>>)
    ensures r.Some? ==> |r.value.rest| < |text|
    decreases |text|, 1
  {
    if text == [] then None
    else if text[0] == Unit('"') then
      var s := ReadString(text[1..]);
      if s.Some? then Some(Reading(Str(s.value.value), s.value.rest)) else None
    else if text[0] == Unit('[') then
      if |text| > 1 && text[1] == Unit(']') then Some(Reading(Arr([]), text[2..]))
      else
        var items := ReadItems(text[1..]);
        if items.Some? then Some(Reading(Arr(items.value.value), items.value.rest)) else None
    else if text[0] == Unit('{') then
      if |text| > 1 && text[1] == Unit('}') then Some(Reading(Obj([]), text[2..]))
      else
        var props := ReadProps(text[1..]);
        if props.Some? then Some(Reading(Obj(props.value.value), props.value.rest)) else None
    else if StartsNumber(text[0]) then
      Some(Reading(Num(Finite(text[..NumberLength(text)])), text[NumberLength(text)..]))
    else if text[0] == Unit('n') then ReadWord(text, Ascii("null"), Null)
    else if text[0] == Unit('t') then ReadWord(text, Ascii("true"), Bool(true))
    else ReadWord(text, Ascii("false"), Bool(false))
  }

  /** One or more values with commas between them, up to the closing bracket. */
  function ReadItems(text: JsString): (r: Option<Reading<seq<Js>>>)
    ensures r.Some? ==> |r.value.rest| < |text|
    decreases |text|, 2
  {
    var v := ReadValue(text);
    if v.None? || v.value.rest == [] then None
    else if v.value.rest[0] == Unit(']') then Some(Reading([v.value.value], v.value.rest[1..]))
    else if v.value.rest[0] == Unit(',') then
      var more := ReadItems(v.value.rest[1..]);
      if more.Some? then Some(Reading([v.value.value] + more.value.value, more.value.rest)) else None
    else None
  }

  /** One or more members with commas between them, up to the closing brace. */
  function ReadProps(text: JsString): (r: Option<Reading<seq<Prop>>>)
    ensures r.Some? ==> |r.value.rest| < |text|
    decreases |text|, 2
  {
    if text == [] || text[0] != Unit('"') then None
    else
      var key := ReadString(text[1..]);
      if key.None? || key.value.rest == [] || key.value.rest[0] != Unit(':') then None
      else
        var v := ReadValue(key.value.rest[1..]);
        if v.None? || v.value.rest == [] then None
        else
          var prop := Prop(key.value.value, v.value.value);
          if v.value.rest[0] == Unit('}') then Some(Reading([prop], v.value.rest[1..]))
          else if v.value.rest[0] == Unit(',') then
            var more := ReadProps(v.value.rest[1..]);
            if more.Some? then Some(Reading([prop] + more.value.value, more.value.rest)) else None
          else None
  }

  // ---- what was printed is read back -------------------------------------------------------------

  /** What can follow a value: nothing that would make a number longer. */
  predicate EndsValue(rest: JsString) {
    rest == [] || NumberLength(rest) == 0
  }

  lemma {:induction false} NumberReads(text: JsString, rest: JsString)
    requires (forall k :: 0 <= k < |text| ==> IsNumeralUnit(text[k])) && EndsValue(rest)
    ensures NumberLength(text + rest) == |text|
    decreases |text|
  {
    if text == [] {
      assert text + rest == rest;
    } else {
      assert (text + rest)[1..] == text[1..] + rest;
      NumberReads(text[1..], rest);
      assert Ascii("+.eE")[0] == 0x2b && Ascii("+.eE")[1] == 0x2e && Ascii("+.eE")[2] == 0x65;
    }
  }

  lemma WordReads(word: JsString, v: Js, rest: JsString)
    requires word != []
    ensures ReadWord(word + rest, word, v) == Some(Reading(v, rest))
  {
  }

  /** A text in brackets or quotes, and what follows it. */
  lemma Wrapped(first: CodeUnit, body: JsString, last: CodeUnit, rest: JsString)
    ensures var text := [first] + body + [last] + rest;
      text[0] == first && text[1..] == body + ([last] + rest) && (body != [] ==> text[1] == body[0])
  {
  }

  lemma QuotedReads(s: JsString, rest: JsString)
    ensures var text := Quoted(s) + rest;
      text != [] && text[0] == QUOTE && ReadString(text[1..]) == Some(Reading(s, rest))
  {
    StringReads(s, rest);
    Wrapped(QUOTE, Escaped(s), QUOTE, rest);
  }

  lemma StringValueReads(s: JsString, rest: JsString)
    ensures ReadValue(Quoted(s) + rest) == Some(Reading(Str(s), rest))
  {
    QuotedReads(s, rest);
  }

  lemma NumberValueReads(text: JsString, rest: JsString)
    requires IsNumeral(text) && EndsValue(rest)
    ensures ReadValue(text + rest) == Some(Reading(Num(Finite(text)), rest))
  {
    NumberReads(text, rest);
    assert (text + rest)[..|text|] == text && (text + rest)[|text|..] == rest;
  }

  lemma WordValuesRead(rest: JsString)
    ensures ReadValue(NULL_TEXT + rest) == Some(Reading(Null, rest))
    ensures ReadValue(TRUE_TEXT + rest) == Some(Reading(Bool(true), rest))
    ensures ReadValue(FALSE_TEXT + rest) == Some(Reading(Bool(false), rest))
  {
    assert NULL_TEXT == Ascii("null") && TRUE_TEXT == Ascii("true") && FALSE_TEXT == Ascii("false");
    WordReads(NULL_TEXT, Null, rest);
    WordReads(TRUE_TEXT, Bool(true), rest);
    WordReads(FALSE_TEXT, Bool(false), rest);
  }

  lemma ArrayReads(text: JsString, items: seq<Js>, rest: JsString)
    requires |text| > 1 && text[0] == OPEN_BRACKET && text[1] != CLOSE_BRACKET
    requires ReadItems(text[1..]) == Some(Reading(items, rest))
    ensures ReadValue(text) == Some(Reading(Arr(items), rest))
  {
  }

  lemma ObjectReads(text: JsString, props: seq<Prop>, rest: JsString)
    requires |text| > 1 && text[0] == OPEN_BRACE && text[1] != CLOSE_BRACE
    requires ReadProps(text[1..]) == Some(Reading(props, rest))
    ensures ReadValue(text) == Some(Reading(Obj(props), rest))
  {
  }

  /** One item and what comes after it. */
  lemma ItemReads(text: JsString, v: Js, more: JsString, items: seq<Js>, rest: JsString)
    requires more != [] && ReadValue(text) == Some(Reading(v, more))
    requires if items == [] then more == [CLOSE_BRACKET] + rest
      else more[0] == COMMA && ReadItems(more[1..]) == Some(Reading(items, rest))
    ensures ReadItems(text) == Some(Reading([v] + items, rest))
  {
    if items == [] { assert more[1..] == rest && [v] + items == [v]; }
  }

  /** One member and what comes after it. */
  lemma PropReads(text: JsString, p: Prop, value: JsString, more: JsString, props: seq<Prop>, rest: JsString)
    requires text != [] && text[0] == QUOTE && ReadString(text[1..]) == Some(Reading(p.key, [COLON] + value))
    requires more != [] && ReadValue(value) == Some(Reading(p.value, more))
    requires if props == [] then more == [CLOSE_BRACE] + rest
      else more[0] == COMMA && ReadProps(more[1..]) == Some(Reading(props, rest))
    ensures ReadProps(text) == Some(Reading([p] + props, rest))
  {
    assert ([COLON] + value)[1..] == value;
    if props == [] { assert more[1..] == rest && [p] + props == [p]; }
  }

  /** A value never begins like the end of an array. */
  lemma BeginsValue(v: Js)
    requires Printable(v)
    ensures Text(v) != [] && Text(v)[0] != CLOSE_BRACKET
  {
  }

  lemma BeginsItems(items: seq<Js>)
    requires PrintableItems(items) && items != []
    ensures ItemsText(items) != [] && ItemsText(items)[0] != CLOSE_BRACKET
  {
    BeginsValue(items[0]);
  }

  lemma Regrouped(a: JsString, b: JsString, c: JsString, d: JsString, e: JsString)
    ensures a + b + c + d + e == a + (b + (c + (d + e)))
  {
  }

  /** What follows the first member of a list, up to the end of the object. */
  function AfterFirst(props: seq<Prop>, end: JsString): JsString
    requires PrintableProps(props) && props != []
  {
    if |props| == 1 then end else [COMMA] + (PropsText(props[1..]) + end)
  }

  function TailText(props: seq<Prop>): JsString
    requires PrintableProps(props) && props != []
  {
    if |props| == 1 then [] else [COMMA] + PropsText(props[1..])
  }

  lemma TailThenEnd(props: seq<Prop>, end: JsString)
    requires PrintableProps(props) && props != []
    ensures TailText(props) + end == AfterFirst(props, end)
  {
    if |props| > 1 { Together([COMMA], PropsText(props[1..]), end); }
  }

  lemma PropsTextUnrolled(props: seq<Prop>)
    requires PrintableProps(props) && props != []
    ensures PropsText(props) == Quoted(props[0].key) + [COLON] + Text(props[0].value) + TailText(props)
  {
  }

  lemma PropsTextIs(props: seq<Prop>, end: JsString)
    requires PrintableProps(props) && props != []
    ensures PropsText(props) + end
      == Quoted(props[0].key) + ([COLON] + (Text(props[0].value) + AfterFirst(props, end)))
  {
    var key, value, tail := Quoted(props[0].key), Text(props[0].value), TailText(props);
    PropsTextUnrolled(props);
    Regrouped(key, [COLON], value, tail, end);
    TailThenEnd(props, end);
  }

  lemma BeginsProps(props: seq<Prop>)
    requires PrintableProps(props) && props != []
    ensures PropsText(props) != [] && PropsText(props)[0] == QUOTE
  {
    PropsTextUnrolled(props);
    assert Quoted(props[0].key)[0] == QUOTE;
  }

  lemma ArrayTextReads(items: seq<Js>, rest: JsString)
    requires PrintableItems(items) && items != []
    requires ReadItems(ItemsText(items) + ([CLOSE_BRACKET] + rest)) == Some(Reading(items, rest))
    ensures ReadValue(Text(Arr(items)) + rest) == Some(Reading(Arr(items), rest))
  {
    var body := ItemsText(items);
    BeginsItems(items);
    Wrapped(OPEN_BRACKET, body, CLOSE_BRACKET, rest);
    ArrayReads([OPEN_BRACKET] + body + [CLOSE_BRACKET] + rest, items, rest);
  }

  lemma ObjectTextReads(props: seq<Prop>, rest: JsString)
    requires PrintableProps(props) && props != []
    requires ReadProps(PropsText(props) + ([CLOSE_BRACE] + rest)) == Some(Reading(props, rest))
    ensures ReadValue(Text(Obj(props)) + rest) == Some(Reading(Obj(props), rest))
  {
    var body := PropsText(props);
    BeginsProps(props);
    Wrapped(OPEN_BRACE, body, CLOSE_BRACE, rest);
    assert |body + ([CLOSE_BRACE] + rest)| > 0;
    ObjectReads([OPEN_BRACE] + body + [CLOSE_BRACE] + rest, props, rest);
  }

  lemma EmptyReads(rest: JsString)
    ensures ReadValue(Text(Arr([])) + rest) == Some(Reading(Arr([]), rest))
    ensures ReadValue(Text(Obj([])) + rest) == Some(Reading(Obj([]), rest))
  {
    assert (Text(Arr([])) + rest)[2..] == rest && (Text(Obj([])) + rest)[2..] == rest;
  }

  lemma FirstPropReads(text: JsString, p: Prop, value: JsString, more: JsString, props: seq<Prop>, all: seq<Prop>,
                       rest: JsString)
    requires text == Quoted(p.key) + ([COLON] + (value + more)) && all == [p] + props
    requires more != [] && ReadValue(value + more) == Some(Reading(p.value, more))
    requires if props == [] then more == [CLOSE_BRACE] + rest
      else more[0] == COMMA && ReadProps(more[1..]) == Some(Reading(props, rest))
    ensures ReadProps(text) == Some(Reading(all, rest))
  {
    QuotedReads(p.key, [COLON] + (value + more));
    PropReads(text, p, value + more, more, props, rest);
  }

  /** JSON text is read back as the tree it was printed from, whatever follows. */
  lemma {:induction false} TextReads(v: Js, rest: JsString)
    requires Printable(v) && EndsValue(rest)
    ensures ReadValue(Text(v) + rest) == Some(Reading(v, rest))
    decreases v, 1
  {
    match v
    case Str(s) => StringValueReads(s, rest);
    case Num(n) => NumberValueReads(n.text, rest);
    case Arr(items) =>
      if items == [] {
        EmptyReads(rest);
      } else {
        ItemsRead(items, rest);
        ArrayTextReads(items, rest);
      }
    case Obj(props) =>
      if props == [] {
        EmptyReads(rest);
      } else {
        PropsRead(props, rest);
        ObjectTextReads(props, rest);
      }
    case _ => WordValuesRead(rest);
  }

  lemma {:induction false} ItemsRead(items: seq<Js>, rest: JsString)
    requires PrintableItems(items) && items != []
    ensures ReadItems(ItemsText(items) + ([CLOSE_BRACKET] + rest)) == Some(Reading(items, rest))
    decreases items, 0
  {
    var tail := items[1..];
    var end := [CLOSE_BRACKET] + rest;
    var more := if tail == [] then end else [COMMA] + (ItemsText(tail) + end);
    assert ItemsText(items) + end == Text(items[0]) + more;
    TextReads(items[0], more);
    if tail != [] {
      ItemsRead(tail, rest);
      assert more[1..] == ItemsText(tail) + end;
    }
    ItemReads(Text(items[0]) + more, items[0], more, tail, rest);
    assert items == [items[0]] + tail;
  }

  lemma AfterFirstIs(props: seq<Prop>, rest: JsString)
    requires PrintableProps(props) && props != []
    ensures var end := [CLOSE_BRACE] + rest;
      var more := AfterFirst(props, end);
      more != [] && EndsValue(more) &&
      if props[1..] == [] then more == end else more[0] == COMMA && more[1..] == PropsText(props[1..]) + end
  {
  }

  lemma {:induction false} PropsRead(props: seq<Prop>, rest: JsString)
    requires PrintableProps(props) && props != []
    ensures ReadProps(PropsText(props) + ([CLOSE_BRACE] + rest)) == Some(Reading(props, rest))
    decreases props, 0
  {
    var tail, end := props[1..], [CLOSE_BRACE] + rest;
    AfterFirstIs(props, rest);
    TextReads(props[0].value, AfterFirst(props, end));
    if tail != [] { PropsRead(tail, rest); }
    PropsTextIs(props, end);
    FirstPropReads(PropsText(props) + end, props[0], Text(props[0].value), AfterFirst(props, end), tail, props, rest);
  }

  /** The whole text of a value reads as that value and nothing is left. */
  lemma RoundTrip(v: Js)
    requires Printable(v)
    ensures ReadValue(Text(v)) == Some(Reading(v, []))
  {
    TextReads(v, []);
    assert Text(v) + [] == Text(v);
  }

  // ---- which units are escaped -------------------------------------------------------------------

  /** Whether the first code point needs no escape. */
  predicate StartsPlain(s: JsString)
    requires s != []
  {
    && s[0] != Unit('"') && s[0] != Unit('\\') && s[0] >= 0x20
    && (if 0xd800 <= s[0] <= 0xdbff then |s| > 1 && 0xdc00 <= s[1] <= 0xdfff else !(0xdc00 <= s[0] <= 0xdfff))
  }

  /** Text that needs no escape: no quote, backslash or control, and every surrogate in a pair. */
  predicate IsPlain(s: JsString)
    decreases |s|
  {
    s == [] || (StartsPlain(s) && IsPlain(if 0xd800 <= s[0] <= 0xdbff then s[2..] else s[1..]))
  }

  lemma {:induction false} EscapedIsLonger(s: JsString)
    ensures |Escaped(s)| >= |s|
    decreases |s|
  {
    if s != [] { EscapedIsLonger(s[FirstLength(s)..]); }
  }

  lemma FirstTextExactly(s: JsString)
    requires s != []
    ensures |FirstText(s)| >= FirstLength(s) && (FirstText(s) == s[..FirstLength(s)] <==> StartsPlain(s))
    ensures StartsPlain(s) ==> (IsPlain(s) <==> IsPlain(s[FirstLength(s)..]))
    ensures !StartsPlain(s) ==> !IsPlain(s)
  {
  }

  lemma SameParts(a: JsString, b: JsString, c: JsString, d: JsString)
    requires |a| >= |c| && |b| >= |d|
    ensures a + b == c + d <==> a == c && b == d
  {
    if a + b == c + d {
      assert |a + b| == |c + d|;
      assert a == (a + b)[..|a|] && b == (a + b)[|a|..] && c == (c + d)[..|c|] && d == (c + d)[|c|..];
    }
  }

  /** Nothing is escaped without need: a string is printed as it stands exactly if it is plain. */
  lemma {:induction false} PlainExactly(s: JsString)
    ensures Escaped(s) == s <==> IsPlain(s)
    decreases |s|
  {
    if s != [] {
      var n := FirstLength(s);
      var head, tail := s[..n], s[n..];
      PlainExactly(tail);
      EscapedIsLonger(tail);
      FirstTextExactly(s);
      assert s == head + tail;
      SameParts(FirstText(s), Escaped(tail), head, tail);
    }
  }

  lemma OneUnit(u: CodeUnit)
    ensures Escaped([u]) == FirstText([u])
  {
  }

  /** What the quote, the backslash, the controls with letters of their own, and other units look like escaped. */
  lemma EscapesExactly(u: CodeUnit)
    ensures u == 0x22 ==> Escaped([u]) == Ascii("\\\"")
    ensures u == 0x5c ==> Escaped([u]) == Ascii("\\\\")
    ensures u == 0x08 ==> Escaped([u]) == Ascii("\\b")
    ensures u == 0x09 ==> Escaped([u]) == Ascii("\\t")
    ensures u == 0x0a ==> Escaped([u]) == Ascii("\\n")
    ensures u == 0x0c ==> Escaped([u]) == Ascii("\\f")
    ensures u == 0x0d ==> Escaped([u]) == Ascii("\\r")
    ensures u == 0x1f ==> Escaped([u]) == Ascii("\\u001f")
    ensures u == 0xdead ==> Escaped([u]) == Ascii("\\udead")
  {
    OneUnit(u);
  }
}
