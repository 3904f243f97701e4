/**
 JSON text determines the tree it was printed from, also in the middle of a longer text, and it never
 contains a raw newline.
 */
module JsonUnambiguous {
  import opened JsonText

  /** What may stand right after a value inside a text. */
  predicate Follows(x: JsString) {
    x == [] || x[0] == COMMA || x[0] == CLOSE_BRACKET || x[0] == CLOSE_BRACE
  }

  lemma Cancel(a: JsString, x: JsString, b: JsString, y: JsString)
    requires a + x == b + y && |a| == |b|
    ensures a == b && x == y
  {
    assert (a + x)[..|a|] == a && (b + y)[..|b|] == b;
    assert (a + x)[|a|..] == x && (b + y)[|b|..] == y;
  }

  lemma Regroup(a: JsString, b: JsString, c: JsString)
    ensures a + b + c == a + (b + c)
  {
  }

  // ---- strings -----------------------------------------------------------------------------------

  lemma HexDigitIsInjective(d: int, e: int)
    requires 0 <= d < 16 && 0 <= e < 16 && HexDigit(d) == HexDigit(e)
    ensures d == e
  {
  }

  lemma FourDigits(u: CodeUnit)
    ensures u == 4096 * (u / 4096) + 256 * (u / 256 % 16) + 16 * (u / 16 % 16) + u % 16
  {
    assert u / 16 == 16 * (u / 16 / 16) + u / 16 % 16;
    assert u / 256 == 16 * (u / 256 / 16) + u / 256 % 16;
    assert u / 16 / 16 == u / 256 && u / 256 / 16 == u / 4096;
  }

  lemma UnicodeEscapeIsInjective(u: CodeUnit, w: CodeUnit)
    requires UnicodeEscape(u) == UnicodeEscape(w)
    ensures u == w
  {
    var a, b := UnicodeEscape(u), UnicodeEscape(w);
    assert a[2] == b[2] && a[3] == b[3] && a[4] == b[4] && a[5] == b[5];
    HexDigitIsInjective(u / 4096, w / 4096);
    HexDigitIsInjective(u / 256 % 16, w / 256 % 16);
    HexDigitIsInjective(u / 16 % 16, w / 16 % 16);
    HexDigitIsInjective(u % 16, w % 16);
    FourDigits(u);
    FourDigits(w);
  }

  lemma ShortEscapeIsInjective(u: CodeUnit, w: CodeUnit)
    requires ShortEscape(u) == ShortEscape(w) != 0
    ensures u == w && ShortEscape(u) != LOWER_U
  {
  }

  /** The first code point can be read off its text. */
  lemma FirstTextIsPrefixFree(s: JsString, t: JsString, x: JsString, y: JsString)
    requires s != [] && t != [] && FirstText(s) + x == FirstText(t) + y
    ensures s[..FirstLength(s)] == t[..FirstLength(t)] && x == y
  {
    var a, b := FirstText(s), FirstText(t);
    assert (a + x)[0] == a[0] && (b + y)[0] == b[0];
    if a[0] == BACKSLASH {
      assert (a + x)[1] == a[1] && (b + y)[1] == b[1];
      Cancel(a, x, b, y);
      if ShortEscape(s[0]) != 0 {
        ShortEscapeIsInjective(s[0], t[0]);
      } else {
        UnicodeEscapeIsInjective(s[0], t[0]);
      }
    } else {
      Cancel(a, x, b, y);
    }
  }

  lemma FirstTextIsNoQuote(s: JsString)
    requires s != []
    ensures FirstText(s) != [] && FirstText(s)[0] != QUOTE
  {
  }

  lemma EscapedStep(s: JsString, z: JsString)
    requires s != []
    ensures Escaped(s) + z == FirstText(s) + (Escaped(s[FirstLength(s)..]) + z)
    ensures (Escaped(s) + z)[0] != QUOTE
  {
    FirstTextIsNoQuote(s);
    Regroup(FirstText(s), Escaped(s[FirstLength(s)..]), z);
  }

  lemma {:induction false} EscapedIsUnambiguous(s: JsString, t: JsString, x: JsString, y: JsString)
    requires Escaped(s) + ([QUOTE] + x) == Escaped(t) + ([QUOTE] + y)
    ensures s == t && x == y
    decreases |s|
  {
    var x', y' := [QUOTE] + x, [QUOTE] + y;
    if s != [] { EscapedStep(s, x'); } else { assert [] + x' == x'; }
    if t != [] { EscapedStep(t, y'); } else { assert [] + y' == y'; }
    if s == [] {
      Cancel([QUOTE], x, [QUOTE], y);
    } else {
      var s', t' := s[FirstLength(s)..], t[FirstLength(t)..];
      FirstTextIsPrefixFree(s, t, Escaped(s') + x', Escaped(t') + y');
      EscapedIsUnambiguous(s', t', x, y);
      assert s == s[..FirstLength(s)] + s' && t == t[..FirstLength(t)] + t';
    }
  }

  lemma QuotedStep(s: JsString, x: JsString)
    ensures Quoted(s) + x == [QUOTE] + (Escaped(s) + ([QUOTE] + x))
  {
  }

  lemma QuotedIsUnambiguous(s: JsString, t: JsString, x: JsString, y: JsString)
    requires Quoted(s) + x == Quoted(t) + y
    ensures s == t && x == y
  {
    QuotedStep(s, x);
    QuotedStep(t, y);
    Cancel([QUOTE], Escaped(s) + ([QUOTE] + x), [QUOTE], Escaped(t) + ([QUOTE] + y));
    EscapedIsUnambiguous(s, t, x, y);
  }

  // ---- values ------------------------------------------------------------------------------------

  lemma NumeralEnds(a: JsString, x: JsString, b: JsString, y: JsString)
    requires IsNumeral(a) && IsNumeral(b) && Follows(x) && Follows(y) && a + x == b + y
    ensures a == b && x == y
  {
    var c := a + x;
    assert forall k :: 0 <= k < |a| ==> c[k] == a[k];
    assert forall k :: 0 <= k < |b| ==> c[k] == b[k];
    assert x != [] ==> c[|a|] == x[0];
    assert y != [] ==> c[|b|] == y[0];
    if |a| != |b| { assert false; }
    Cancel(a, x, b, y);
  }

  /** The first unit tells which kind of value follows. */
  function Lead(v: Js): CodeUnit
    requires Printable(v)
  {
    match v
    case Null => 0x6e
    case Bool(b) => if b then 0x74 else 0x66
    case Num(n) => n.text[0]
    case Str(s) => QUOTE
    case Arr(_) => OPEN_BRACKET
    case Obj(_) => OPEN_BRACE
  }

  lemma TextStartsWithLead(v: Js, x: JsString)
    requires Printable(v)
    ensures Text(v) != [] && (Text(v) + x)[0] == Lead(v)
    ensures Lead(v) != CLOSE_BRACKET && Lead(v) != CLOSE_BRACE && Lead(v) != COMMA
  {
  }

  /** A bracketed text, split after its opening. */
  lemma Bracketed(opening: CodeUnit, inner: JsString, closing: CodeUnit, x: JsString)
    ensures [opening] + inner + [closing] + x == [opening] + (inner + ([closing] + x))
  {
  }

  lemma {:induction false} TextIsUnambiguous(v: Js, w: Js, x: JsString, y: JsString)
    requires Printable(v) && Printable(w) && Follows(x) && Follows(y)
    requires Text(v) + x == Text(w) + y
    ensures v == w && x == y
    decreases v, 1
  {
    TextStartsWithLead(v, x);
    TextStartsWithLead(w, y);
    match v {
      case Num(n) => NumeralEnds(n.text, x, w.n.text, y);
      case Str(s) => QuotedIsUnambiguous(s, w.s, x, y);
      case Arr(items) => ArrTextIsUnambiguous(v, w, x, y);
      case Obj(props) => ObjTextIsUnambiguous(v, w, x, y);
      case Null => Cancel(Text(v), x, Text(w), y);
      case Bool(b) => Cancel(Text(v), x, Text(w), y);
    }
  }

  lemma ArrTextIsUnambiguous(v: Js, w: Js, x: JsString, y: JsString)
    requires v.Arr? && w.Arr? && Printable(v) && Printable(w) && Text(v) + x == Text(w) + y
    ensures v == w && x == y
    decreases v, 0
  {
    Bracketed(OPEN_BRACKET, ItemsText(v.items), CLOSE_BRACKET, x);
    Bracketed(OPEN_BRACKET, ItemsText(w.items), CLOSE_BRACKET, y);
    Cancel([OPEN_BRACKET], ItemsText(v.items) + ([CLOSE_BRACKET] + x),
           [OPEN_BRACKET], ItemsText(w.items) + ([CLOSE_BRACKET] + y));
    ItemsTextIsUnambiguous(v.items, w.items, x, y);
  }

  lemma ObjTextIsUnambiguous(v: Js, w: Js, x: JsString, y: JsString)
    requires v.Obj? && w.Obj? && Printable(v) && Printable(w) && Text(v) + x == Text(w) + y
    ensures v == w && x == y
    decreases v, 0
  {
    Bracketed(OPEN_BRACE, PropsText(v.props), CLOSE_BRACE, x);
    Bracketed(OPEN_BRACE, PropsText(w.props), CLOSE_BRACE, y);
    Cancel([OPEN_BRACE], PropsText(v.props) + ([CLOSE_BRACE] + x),
           [OPEN_BRACE], PropsText(w.props) + ([CLOSE_BRACE] + y));
    PropsTextIsUnambiguous(v.props, w.props, x, y);
  }

  /** What follows the first item of a list: its end, or a comma and the others. */
  function AfterItem(items: seq<Js>, x: JsString): JsString
    requires items != [] && PrintableItems(items)
  {
    if |items| == 1 then [CLOSE_BRACKET] + x else [COMMA] + (ItemsText(items[1..]) + ([CLOSE_BRACKET] + x))
  }

  lemma SplitItems(items: seq<Js>, x: JsString)
    requires items != [] && PrintableItems(items)
    ensures ItemsText(items) + ([CLOSE_BRACKET] + x) == Text(items[0]) + AfterItem(items, x)
    ensures (ItemsText(items) + ([CLOSE_BRACKET] + x))[0] != CLOSE_BRACKET
  {
    if |items| > 1 {
      Regroup(Text(items[0]), [COMMA] + ItemsText(items[1..]), [CLOSE_BRACKET] + x);
      Regroup([COMMA], ItemsText(items[1..]), [CLOSE_BRACKET] + x);
    }
    TextStartsWithLead(items[0], AfterItem(items, x));
  }

  lemma SameHeadAndTail<T>(a: seq<T>, b: seq<T>)
    requires a != [] && b != [] && a[0] == b[0]
    requires (|a| == 1 <==> |b| == 1) && (|a| > 1 ==> a[1..] == b[1..])
    ensures a == b
  {
    assert a == [a[0]] + a[1..] && b == [b[0]] + b[1..];
  }

  lemma ItemsStartAlike(a: seq<Js>, b: seq<Js>, x: JsString, y: JsString)
    requires PrintableItems(a) && PrintableItems(b)
    requires ItemsText(a) + ([CLOSE_BRACKET] + x) == ItemsText(b) + ([CLOSE_BRACKET] + y)
    ensures (a == [] <==> b == []) && (a == [] ==> x == y)
    ensures a != [] ==> Text(a[0]) + AfterItem(a, x) == Text(b[0]) + AfterItem(b, y)
  {
    if a != [] { SplitItems(a, x); } else { assert [] + ([CLOSE_BRACKET] + x) == [CLOSE_BRACKET] + x; }
    if b != [] { SplitItems(b, y); } else { assert [] + ([CLOSE_BRACKET] + y) == [CLOSE_BRACKET] + y; }
    if a == [] { Cancel([CLOSE_BRACKET], x, [CLOSE_BRACKET], y); }
  }

  lemma ItemsGoOnAlike(a: seq<Js>, b: seq<Js>, x: JsString, y: JsString)
    requires a != [] && b != [] && PrintableItems(a) && PrintableItems(b) && AfterItem(a, x) == AfterItem(b, y)
    ensures (|a| == 1 <==> |b| == 1) && (|a| == 1 ==> x == y)
    ensures |a| > 1 ==> ItemsText(a[1..]) + ([CLOSE_BRACKET] + x) == ItemsText(b[1..]) + ([CLOSE_BRACKET] + y)
  {
    assert AfterItem(a, x)[0] == AfterItem(b, y)[0];
    if |a| == 1 {
      Cancel([CLOSE_BRACKET], x, [CLOSE_BRACKET], y);
    } else {
      Cancel([COMMA], ItemsText(a[1..]) + ([CLOSE_BRACKET] + x), [COMMA], ItemsText(b[1..]) + ([CLOSE_BRACKET] + y));
    }
  }

  lemma {:induction false} ItemsTextIsUnambiguous(a: seq<Js>, b: seq<Js>, x: JsString, y: JsString)
    requires PrintableItems(a) && PrintableItems(b)
    requires ItemsText(a) + ([CLOSE_BRACKET] + x) == ItemsText(b) + ([CLOSE_BRACKET] + y)
    ensures a == b && x == y
    decreases a
  {
    ItemsStartAlike(a, b, x, y);
    if a != [] {
      TextIsUnambiguous(a[0], b[0], AfterItem(a, x), AfterItem(b, y));
      ItemsGoOnAlike(a, b, x, y);
      if |a| > 1 { ItemsTextIsUnambiguous(a[1..], b[1..], x, y); }
      SameHeadAndTail(a, b);
    }
  }

  /** What follows the value of the first property. */
  function AfterProp(props: seq<Prop>, x: JsString): JsString
    requires props != [] && PrintableProps(props)
  {
    if |props| == 1 then [CLOSE_BRACE] + x else [COMMA] + (PropsText(props[1..]) + ([CLOSE_BRACE] + x))
  }

  /** A property list, from the value of its first property on. */
  function FromValue(props: seq<Prop>, x: JsString): JsString
    requires props != [] && PrintableProps(props)
  {
    Text(props[0].value) + AfterProp(props, x)
  }

  lemma FourParts(key: JsString, value: JsString, more: JsString, z: JsString)
    ensures key + [COLON] + value + more + z == key + ([COLON] + (value + (more + z)))
  {
    Regroup(key + [COLON] + value, more, z);
    Regroup(key + [COLON], value, more + z);
    Regroup(key, [COLON], value + (more + z));
  }

  lemma SplitProps(props: seq<Prop>, x: JsString)
    requires props != [] && PrintableProps(props)
    ensures PropsText(props) + ([CLOSE_BRACE] + x) == Quoted(props[0].key) + ([COLON] + FromValue(props, x))
    ensures (PropsText(props) + ([CLOSE_BRACE] + x))[0] == QUOTE
  {
    var key, value, z := Quoted(props[0].key), Text(props[0].value), [CLOSE_BRACE] + x;
    var more := if |props| == 1 then [] else [COMMA] + PropsText(props[1..]);
    assert more + z == AfterProp(props, x) by {
      if |props| > 1 { Regroup([COMMA], PropsText(props[1..]), z); } else { assert [] + z == z; }
    }
    FourParts(key, value, more, z);
  }

  lemma PropsStartAlike(a: seq<Prop>, b: seq<Prop>, x: JsString, y: JsString)
    requires PrintableProps(a) && PrintableProps(b)
    requires PropsText(a) + ([CLOSE_BRACE] + x) == PropsText(b) + ([CLOSE_BRACE] + y)
    ensures (a == [] <==> b == []) && (a == [] ==> x == y)
    ensures a != [] ==> Quoted(a[0].key) + ([COLON] + FromValue(a, x)) == Quoted(b[0].key) + ([COLON] + FromValue(b, y))
  {
    if a != [] { SplitProps(a, x); } else { assert [] + ([CLOSE_BRACE] + x) == [CLOSE_BRACE] + x; }
    if b != [] { SplitProps(b, y); } else { assert [] + ([CLOSE_BRACE] + y) == [CLOSE_BRACE] + y; }
    if a == [] { Cancel([CLOSE_BRACE], x, [CLOSE_BRACE], y); }
  }

  lemma PropsGoOnAlike(a: seq<Prop>, b: seq<Prop>, x: JsString, y: JsString)
    requires a != [] && b != [] && PrintableProps(a) && PrintableProps(b) && AfterProp(a, x) == AfterProp(b, y)
    ensures (|a| == 1 <==> |b| == 1) && (|a| == 1 ==> x == y)
    ensures |a| > 1 ==> PropsText(a[1..]) + ([CLOSE_BRACE] + x) == PropsText(b[1..]) + ([CLOSE_BRACE] + y)
  {
    assert AfterProp(a, x)[0] == AfterProp(b, y)[0];
    if |a| == 1 {
      Cancel([CLOSE_BRACE], x, [CLOSE_BRACE], y);
    } else {
      Cancel([COMMA], PropsText(a[1..]) + ([CLOSE_BRACE] + x), [COMMA], PropsText(b[1..]) + ([CLOSE_BRACE] + y));
    }
  }

  lemma KeysAreAlike(a: seq<Prop>, b: seq<Prop>, x: JsString, y: JsString)
    requires a != [] && b != [] && PrintableProps(a) && PrintableProps(b)
    requires Quoted(a[0].key) + ([COLON] + FromValue(a, x)) == Quoted(b[0].key) + ([COLON] + FromValue(b, y))
    ensures a[0].key == b[0].key && Text(a[0].value) + AfterProp(a, x) == Text(b[0].value) + AfterProp(b, y)
  {
    QuotedIsUnambiguous(a[0].key, b[0].key, [COLON] + FromValue(a, x), [COLON] + FromValue(b, y));
    Cancel([COLON], FromValue(a, x), [COLON], FromValue(b, y));
  }

  lemma {:induction false} PropsTextIsUnambiguous(a: seq<Prop>, b: seq<Prop>, x: JsString, y: JsString)
    requires PrintableProps(a) && PrintableProps(b)
    requires PropsText(a) + ([CLOSE_BRACE] + x) == PropsText(b) + ([CLOSE_BRACE] + y)
    ensures a == b && x == y
    decreases a
  {
    PropsStartAlike(a, b, x, y);
    if a != [] {
      KeysAreAlike(a, b, x, y);
      TextIsUnambiguous(a[0].value, b[0].value, AfterProp(a, x), AfterProp(b, y));
      PropsGoOnAlike(a, b, x, y);
      if |a| > 1 { PropsTextIsUnambiguous(a[1..], b[1..], x, y); }
      SameHeadAndTail(a, b);
    }
  }

  /** Two printable trees with the same text are the same tree. */
  lemma TextIsInjective(v: Js, w: Js)
    requires Printable(v) && Printable(w) && Text(v) == Text(w)
    ensures v == w
  {
    assert Text(v) + [] == Text(v) && Text(w) + [] == Text(w);
    TextIsUnambiguous(v, w, [], []);
  }

  // ---- no newline --------------------------------------------------------------------------------

  lemma FirstTextHasNoNewline(s: JsString)
    requires s != []
    ensures NEWLINE !in FirstText(s)
  {
    if StartsWithPair(s) { assert s[..2] == [s[0], s[1]]; }
  }

  lemma {:induction false} EscapedHasNoNewline(s: JsString)
    ensures NEWLINE !in Escaped(s)
    decreases |s|
  {
    if s != [] {
      FirstTextHasNoNewline(s);
      EscapedHasNoNewline(s[FirstLength(s)..]);
    }
  }

  lemma {:induction false} TextHasNoNewline(v: Js)
    requires Printable(v)
    ensures NEWLINE !in Text(v)
    decreases v, 1
  {
    match v
    case Str(s) => EscapedHasNoNewline(s);
    case Arr(items) => ItemsTextHasNoNewline(items);
    case Obj(props) => PropsTextHasNoNewline(props);
    case _ =>
  }

  lemma {:induction false} ItemsTextHasNoNewline(items: seq<Js>)
    requires PrintableItems(items)
    ensures NEWLINE !in ItemsText(items)
    decreases items, 0
  {
    if items != [] {
      TextHasNoNewline(items[0]);
      ItemsTextHasNoNewline(items[1..]);
    }
  }

  lemma {:induction false} PropsTextHasNoNewline(props: seq<Prop>)
    requires PrintableProps(props)
    ensures NEWLINE !in PropsText(props)
    decreases props, 0
  {
    if props != [] {
      EscapedHasNoNewline(props[0].key);
      TextHasNoNewline(props[0].value);
      PropsTextHasNoNewline(props[1..]);
    }
  }
}
