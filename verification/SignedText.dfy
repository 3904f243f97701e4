/**
 The text that is signed, byte by byte: its lines, and the fixed vector that agent and hub share.
 */
module SignedText {
  import opened JsonText
  import opened JsonReader
  import opened PropertyOrder
  import opened Canonical
  import opened CanonicalTrees
  import opened Signing

  // ---- lines -------------------------------------------------------------------------------------

  /** String.prototype.split at newlines. */
  function Split(s: JsString): (lines: seq<JsString>)
    ensures lines != []
  {
    if s == [] then [[]]
    else
      var more := Split(s[1..]);
      if s[0] == Unit('\n') then [[]] + more else [[s[0]] + more[0]] + more[1..]
  }

  lemma {:induction false} OneLine(s: JsString)
    requires Unit('\n') !in s
    ensures Split(s) == [s]
    decreases |s|
  {
    if s != [] {
      OneLine(s[1..]);
      assert s == [s[0]] + s[1..];
    }
  }

  lemma MoreLines<T>(a: T, b: seq<T>, c: seq<T>)
    ensures [a] + (b + c) == [a] + b + c
  {
  }

  /** One more unit in front of the first line. */
  lemma LongerLine(u: CodeUnit, lines: seq<JsString>, more: seq<JsString>)
    requires lines != []
    ensures [[u] + (lines + more)[0]] + (lines + more)[1..] == [[u] + lines[0]] + lines[1..] + more
  {
    assert (lines + more)[1..] == lines[1..] + more;
    MoreLines([u] + lines[0], lines[1..], more);
  }

  /** A newline ends whatever line stands before it. */
  lemma {:induction false} SplitAtNewline(a: JsString, b: JsString)
    ensures Split(a + ([NEWLINE] + b)) == Split(a) + Split(b)
    decreases |a|
  {
    var s := a + ([NEWLINE] + b);
    if a == [] {
      assert s[1..] == b;
    } else {
      assert s[1..] == a[1..] + ([NEWLINE] + b);
      SplitAtNewline(a[1..], b);
      if a[0] == NEWLINE {
        MoreLines([], Split(a[1..]), Split(b));
      } else {
        LongerLine(a[0], Split(a[1..]), Split(b));
      }
    }
  }

  lemma LineThen(line: JsString, rest: JsString)
    requires NEWLINE !in line
    ensures Split(line + ([NEWLINE] + rest)) == [line] + Split(rest)
  {
    SplitAtNewline(line, rest);
    OneLine(line);
  }

  lemma Listed<T>(a: T, b: T, c: T, ds: seq<T>, e: T)
    ensures [a] + ([b] + ([c] + (ds + [e]))) == [a, b, c] + ds + [e]
  {
  }

  lemma JoinedLinesSplit(event: JsString, time: JsString, nonce: JsString, body: JsString)
    requires NEWLINE !in event && NEWLINE !in time && NEWLINE !in body
    ensures Split(JoinedLines(event, time, nonce, body)) == [Ascii("v1"), event, time] + Split(nonce) + [body]
  {
    var c := nonce + ([NEWLINE] + body);
    var b := time + ([NEWLINE] + c);
    assert SCHEME == Ascii("v1");
    SplitAtNewline(nonce, body);
    OneLine(body);
    LineThen(time, c);
    LineThen(event, b);
    LineThen(SCHEME, event + ([NEWLINE] + b));
    Listed(SCHEME, event, time, Split(nonce), body);
  }

  /**
   The lines of a signed text: the version, the event, the time, the lines of the nonce and the canonical
   payload, in that order.
   */
  lemma SignedLines(event: JsString, timestamp: JsNumber, nonce: JsString, payload: Js)
    requires WellFormed(payload) && NumberOk(timestamp) && NEWLINE !in event
    ensures Split(SigningMaterial(event, timestamp, nonce, payload))
      == [Ascii("v1"), event, NumberText(timestamp)] + Split(nonce) + [CanonicalPayload(payload)]
    ensures NumberText(NaN) == Ascii("NaN") && NumberText(NegativeZero) == Ascii("0")
    ensures NumberText(Infinity(false)) == Ascii("Infinity") && NumberText(Infinity(true)) == Ascii("-Infinity")
  {
    PartsHaveNoNewline(timestamp, payload);
    JoinedLinesSplit(event, NumberText(timestamp), nonce, CanonicalPayload(payload));
  }

  // ---- the fixed vector --------------------------------------------------------------------------

  lemma AsciiTogether(a: string, b: string)
    requires forall k :: 0 <= k < |a| ==> a[k] < 128 as char
    requires forall k :: 0 <= k < |b| ==> b[k] < 128 as char
    ensures Ascii(a) + Ascii(b) == Ascii(a + b)
  {
  }

  lemma {:induction false} LettersArePlain(s: JsString)
    requires forall k :: 0 <= k < |s| ==> 0x20 <= s[k] < 0x7f && s[k] != Unit('"') && s[k] != Unit('\\')
    ensures IsPlain(s)
    decreases |s|
  {
    if s != [] { LettersArePlain(s[1..]); }
  }

  predicate IsWord(s: string) {
    forall k :: 0 <= k < |s| ==> 'a' <= s[k] <= 'z' || 'A' <= s[k] <= 'Z'
  }

  lemma WordIsQuoted(s: string)
    requires IsWord(s)
    ensures Quoted(Ascii(s)) == Ascii("\"" + s + "\"")
  {
    LettersArePlain(Ascii(s));
    PlainExactly(Ascii(s));
  }

  lemma WordBefore(a: string, b: string)
    requires IsWord(a) && IsWord(b) && a != [] && b != [] && a[0] < b[0]
    ensures KeyBefore(Ascii(a), Ascii(b)) && Ascii(a) != PROTO && Ascii(b) != PROTO
  {
    assert Ascii(a)[0] != PROTO[0] && Ascii(b)[0] != PROTO[0];
    FirstUnit(Ascii(a), Ascii(b));
  }

  function Number(s: string): Js
    requires forall k :: 0 <= k < |s| ==> s[k] < 128 as char
  {
    Num(Finite(Ascii(s)))
  }

  function Member(key: string, value: Js): Prop
    requires IsWord(key)
  {
    Prop(Ascii(key), value)
  }

  /** The payload of the vector: { serviceIndex: 7, status: 'running', nested: { z: [3, 1, 2], a: null } } */
  const SEVEN: Js := Number("7")
  const RUNNING: Js := Str(Ascii("running"))
  const INDEX: Prop := Member("serviceIndex", SEVEN)
  const STATUS: Prop := Member("status", RUNNING)
  const LIST: Js := Arr([Number("3"), Number("1"), Number("2")])
  const NESTED: Js := Obj([Member("z", LIST), Member("a", Null)])
  const PAYLOAD: Js := Obj([INDEX, STATUS, Member("nested", NESTED)])

  /** The same with its keys in order. */
  const ORDERED_NESTED: Js := Obj([Member("a", Null), Member("z", LIST)])
  const ORDERED: Js := Obj([Member("nested", ORDERED_NESTED), INDEX, STATUS])

  lemma TwoMembers(p: Prop, q: Prop)
    requires KeyBefore(p.key, q.key) && p.key != PROTO && q.key != PROTO
    requires Printable(p.value) && KeysInOrder(p.value) && Printable(q.value) && KeysInOrder(q.value)
    ensures Printable(Obj([p, q])) && KeysInOrder(Obj([p, q]))
  {
    PrintableElements([p, q]);
  }

  lemma ThreeMembers(p: Prop, q: Prop, r: Prop)
    requires KeyBefore(p.key, q.key) && KeyBefore(p.key, r.key) && KeyBefore(q.key, r.key)
    requires p.key != PROTO && Printable(p.value) && KeysInOrder(p.value)
    requires Printable(Obj([q, r])) && KeysInOrder(Obj([q, r]))
    ensures Printable(Obj([p, q, r])) && KeysInOrder(Obj([p, q, r]))
  {
    assert [p, q, r][1..] == [q, r];
    assert q in [q, r] && r in [q, r];
  }

  lemma NumberPrints(s: string)
    requires |s| == 1 && '0' <= s[0] <= '9'
    ensures Printable(Number(s)) && KeysInOrder(Number(s)) && Text(Number(s)) == Ascii(s)
  {
  }

  lemma ListPrints()
    ensures Printable(LIST) && KeysInOrder(LIST) && Text(LIST) == Ascii("[3,1,2]")
  {
    NumberPrints("3");
    NumberPrints("1");
    NumberPrints("2");
    var items := LIST.items;
    assert items[1..][1..] == [Number("2")] && items[1..] == [Number("1"), Number("2")];
    assert ItemsText(items[1..][1..]) == Ascii("2");
    assert ItemsText(items[1..]) == Ascii("1,2");
    assert ItemsText(items) == Ascii("3,1,2");
  }

  lemma NestedIsOrdered()
    ensures Printable(ORDERED_NESTED) && KeysInOrder(ORDERED_NESTED)
  {
    ListPrints();
    WordBefore("a", "z");
    TwoMembers(Member("a", Null), Member("z", LIST));
  }

  lemma IndexBeforeStatus()
    ensures KeyBefore(Ascii("serviceIndex"), Ascii("status"))
  {
    var a, b := Ascii("serviceIndex"), Ascii("status");
    assert a[..1] == b[..1] && a[1] < b[1];
  }

  lemma RestIsOrdered()
    ensures Printable(Obj([INDEX, STATUS])) && KeysInOrder(Obj([INDEX, STATUS]))
  {
    NumberPrints("7");
    IndexBeforeStatus();
    WordBefore("nested", "serviceIndex");
    WordBefore("nested", "status");
    TwoMembers(INDEX, STATUS);
  }

  lemma NestedComesFirst()
    ensures var key := Ascii("nested"); KeyBefore(key, INDEX.key) && KeyBefore(key, STATUS.key) && key != PROTO
  {
    WordBefore("nested", "serviceIndex");
    WordBefore("nested", "status");
  }

  lemma WithNested(p: Prop)
    requires p.key == Ascii("nested") && Printable(p.value) && KeysInOrder(p.value)
    ensures Printable(Obj([p, INDEX, STATUS])) && KeysInOrder(Obj([p, INDEX, STATUS]))
  {
    NestedComesFirst();
    IndexBeforeStatus();
    RestIsOrdered();
    ThreeMembers(p, INDEX, STATUS);
  }

  lemma OrderedIsOrdered()
    ensures Printable(ORDERED) && KeysInOrder(ORDERED)
  {
    NestedIsOrdered();
    WithNested(Member("nested", ORDERED_NESTED));
  }

  // ---- what it means -----------------------------------------------------------------------------

  lemma TwoFields(p: Prop, q: Prop)
    requires Kept(p) && Kept(q) && p.key != q.key
    ensures MeaningProps([p, q]) == MeaningProps([q, p])
  {
    assert [p, q][1..] == [q] && [q, p][1..] == [p] && [q][1..] == [] && [p][1..] == [];
  }

  lemma ThreeFields(p: Prop, q: Prop, r: Prop, r': Prop)
    requires Kept(p) && Kept(q) && Kept(r) && Kept(r') && r.key == r'.key && Meaning(r.value) == Meaning(r'.value)
    requires p.key != r.key && q.key != r.key
    ensures MeaningProps([p, q, r]) == MeaningProps([r', p, q])
  {
    assert [p, q, r][1..] == [q, r] && [q, r][1..] == [r] && [r][1..] == [];
    assert [r', p, q][1..] == [p, q] && [p, q][1..] == [q] && [q][1..] == [];
    assert MeaningProps([r]) == map[r.key := Meaning(r.value)];
    assert MeaningProps([q]) == map[q.key := Meaning(q.value)];
  }

  lemma KeysDiffer()
    ensures INDEX.key != STATUS.key && INDEX.key != Ascii("nested") && STATUS.key != Ascii("nested")
    ensures Ascii("a") != Ascii("z")
    ensures forall key :: key in {INDEX.key, STATUS.key, Ascii("nested"), Ascii("a"), Ascii("z")} ==>
      key != PROTO && key !in ENVELOPE_FIELDS
  {
    assert |INDEX.key| == 12 && |STATUS.key| == 6 && |Ascii("nested")| == 6;
    assert STATUS.key[0] == Unit('s') && Ascii("nested")[0] == Unit('n') && INDEX.key[0] == Unit('s');
    assert Ascii("a")[0] == Unit('a') && Ascii("z")[0] == Unit('z');
    assert PROTO[0] == Unit('_') && forall key :: key in ENVELOPE_FIELDS ==> key[0] == Unit('_');
  }

  lemma SameMeaning()
    ensures Meaning(ORDERED) == Meaning(PAYLOAD)
  {
    KeysDiffer();
    TwoFields(Member("a", Null), Member("z", LIST));
    ThreeFields(INDEX, STATUS, Member("nested", NESTED), Member("nested", ORDERED_NESTED));
  }

  lemma ListIsWellFormed()
    ensures WellFormed(LIST)
  {
    ListPrints();
    OrderedIsWellFormed(LIST);
  }

  lemma PayloadIsWellFormed()
    ensures WellFormed(NESTED) && WellFormed(PAYLOAD)
  {
    KeysDiffer();
    ListIsWellFormed();
    NumberPrints("7");
    WellFormedElements(NESTED.props);
    WellFormedElements(PAYLOAD.props);
  }

  // ---- its text ----------------------------------------------------------------------------------

  predicate IsAscii(s: string) {
    forall k :: 0 <= k < |s| ==> s[k] < 128 as char
  }

  /** A value and the text it is expected to have. */
  predicate HasText(v: Js, text: string) {
    Printable(v) && IsAscii(text) && Text(v) == Ascii(text)
  }

  predicate MembersHaveText(props: seq<Prop>, text: string) {
    PrintableProps(props) && IsAscii(text) && PropsText(props) == Ascii(text)
  }

  /** The text of one member. */
  function Entry(key: string, text: string): string {
    "\"" + key + "\":" + text
  }

  lemma MemberText(key: string, value: Js, text: string)
    requires IsWord(key) && HasText(value, text)
    ensures IsAscii(Entry(key, text)) && Quoted(Ascii(key)) + [COLON] + Text(value) == Ascii(Entry(key, text))
  {
    WordIsQuoted(key);
    AsciiTogether("\"" + key + "\"", ":" + text);
    assert ("\"" + key + "\"") + (":" + text) == Entry(key, text);
  }

  lemma LastMemberText(key: string, value: Js, text: string)
    requires IsWord(key) && HasText(value, text)
    ensures MembersHaveText([Member(key, value)], Entry(key, text))
  {
    MemberText(key, value, text);
    var props := [Member(key, value)];
    PrintableElements(props);
    assert PropsText(props) == Quoted(Ascii(key)) + [COLON] + Text(value) + [];
  }

  lemma MembersUnrolled(p: Prop, more: seq<Prop>)
    requires Printable(p.value) && more != [] && PrintableProps(more)
    ensures PrintableProps([p] + more)
    ensures PropsText([p] + more) == Quoted(p.key) + [COLON] + Text(p.value) + ([COMMA] + PropsText(more))
  {
    assert ([p] + more)[1..] == more;
  }

  lemma FirstMemberText(key: string, value: Js, text: string, more: seq<Prop>, moreText: string)
    requires IsWord(key) && HasText(value, text) && more != [] && MembersHaveText(more, moreText)
    ensures MembersHaveText([Member(key, value)] + more, Entry(key, text) + ("," + moreText))
  {
    MemberText(key, value, text);
    MembersUnrolled(Member(key, value), more);
    AsciiTogether(",", moreText);
    AsciiTogether(Entry(key, text), "," + moreText);
  }

  lemma ObjectText(props: seq<Prop>, text: string)
    requires MembersHaveText(props, text)
    ensures HasText(Obj(props), "{" + text + "}")
  {
    AsciiTogether("{", text);
    AsciiTogether("{" + text, "}");
  }

  /** The text of an object with two members. */
  function Two(a: string, b: string): string {
    "{" + (a + ("," + b)) + "}"
  }

  lemma ObjectOfTwo(key: string, value: Js, text: string, key': string, value': Js, text': string)
    requires IsWord(key) && HasText(value, text) && IsWord(key') && HasText(value', text')
    ensures HasText(Obj([Member(key, value), Member(key', value')]), Two(Entry(key, text), Entry(key', text')))
  {
    LastMemberText(key', value', text');
    FirstMemberText(key, value, text, [Member(key', value')], Entry(key', text'));
    assert [Member(key, value)] + [Member(key', value')] == [Member(key, value), Member(key', value')];
    ObjectText([Member(key, value), Member(key', value')], Entry(key, text) + ("," + Entry(key', text')));
  }

  lemma NestedLiteral()
    ensures Two(Entry("a", "null"), Entry("z", "[3,1,2]")) == "{\"a\":null,\"z\":[3,1,2]}"
  {
  }

  lemma NullText()
    ensures HasText(Null, "null")
  {
    assert NULL_TEXT == Ascii("null");
  }

  lemma NestedText()
    ensures HasText(ORDERED_NESTED, "{\"a\":null,\"z\":[3,1,2]}")
  {
    ListPrints();
    NullText();
    ObjectOfTwo("a", Null, "null", "z", LIST, "[3,1,2]");
    NestedLiteral();
  }

  lemma ObjectOfThree(
      key: string, value: Js, text: string, key': string, value': Js, text': string,
      key'': string, value'': Js, text'': string)
    requires IsWord(key) && HasText(value, text) && IsWord(key') && HasText(value', text')
    requires IsWord(key'') && HasText(value'', text'')
    ensures HasText(Obj([Member(key, value), Member(key', value'), Member(key'', value'')]),
                    Two(Entry(key, text), Entry(key', text') + ("," + Entry(key'', text''))))
  {
    var p, q, r := Member(key, value), Member(key', value'), Member(key'', value'');
    LastMemberText(key'', value'', text'');
    FirstMemberText(key', value', text', [r], Entry(key'', text''));
    FirstMemberText(key, value, text, [q] + [r], Entry(key', text') + ("," + Entry(key'', text'')));
    assert [p] + ([q] + [r]) == [p, q, r];
    ObjectText([p] + ([q] + [r]), Entry(key, text) + ("," + (Entry(key', text') + ("," + Entry(key'', text'')))));
  }

  lemma WordText(s: string)
    requires IsWord(s)
    ensures HasText(Str(Ascii(s)), "\"" + s + "\"")
  {
    WordIsQuoted(s);
  }

  lemma RunningLiteral()
    ensures IsWord("running") && "\"" + "running" + "\"" == "\"running\""
  {
  }

  lemma LeavesText()
    ensures HasText(SEVEN, "7") && HasText(RUNNING, "\"running\"")
  {
    NumberPrints("7");
    RunningLiteral();
    WordText("running");
  }

  lemma NestedEntry()
    ensures Entry("nested", "{\"a\":null,\"z\":[3,1,2]}") == "\"nested\":{\"a\":null,\"z\":[3,1,2]}"
  {
  }

  lemma IndexEntry()
    ensures Entry("serviceIndex", "7") == "\"serviceIndex\":7"
  {
  }

  lemma StatusEntry()
    ensures Entry("status", "\"running\"") == "\"status\":\"running\""
  {
  }

  lemma KeysAreWords()
    ensures IsWord("nested") && IsWord("serviceIndex") && IsWord("status")
  {
  }

  lemma OrderedTextFrom(nested: string, index: string, status: string)
    requires HasText(ORDERED_NESTED, nested) && HasText(SEVEN, index) && HasText(RUNNING, status)
    ensures HasText(ORDERED, Two(Entry("nested", nested),
                                 Entry("serviceIndex", index) + ("," + Entry("status", status))))
  {
    KeysAreWords();
    ObjectOfThree("nested", ORDERED_NESTED, nested, "serviceIndex", SEVEN, index, "status", RUNNING, status);
  }

  /** The three entries of the canonical text. */
  const NESTED_ENTRY := "\"nested\":{\"a\":null,\"z\":[3,1,2]}"
  const INDEX_ENTRY := "\"serviceIndex\":7"
  const STATUS_ENTRY := "\"status\":\"running\""

  lemma OrderedText()
    ensures HasText(ORDERED, "{" + (NESTED_ENTRY + ("," + (INDEX_ENTRY + ("," + STATUS_ENTRY)))) + "}")
  {
    NestedText();
    LeavesText();
    NestedEntry();
    IndexEntry();
    StatusEntry();
    OrderedTextFrom("{\"a\":null,\"z\":[3,1,2]}", "7", "\"running\"");
  }

  // ---- the vector --------------------------------------------------------------------------------

  lemma PayloadIsBare()
    ensures Stripped(PAYLOAD) == PAYLOAD
  {
    KeysDiffer();
    var keep := (p: Prop) => !IsEnvelope(p);
    var nested := Member("nested", NESTED);
    assert keep(INDEX) && keep(STATUS) && keep(nested);
    assert PAYLOAD.props[1..] == [STATUS, nested] && [STATUS, nested][1..] == [nested] && [nested][1..] == [];
    assert Filtered(keep, [nested]) == [nested];
    assert Filtered(keep, [STATUS, nested]) == [STATUS, nested];
    assert Filtered(keep, PAYLOAD.props) == PAYLOAD.props;
  }

  /** The canonical payload of the vector, in the three pieces above. */
  const VECTOR_JSON: string := "{" + (NESTED_ENTRY + ("," + (INDEX_ENTRY + ("," + STATUS_ENTRY)))) + "}"

  lemma VectorText()
    ensures WellFormed(PAYLOAD) && IsAscii(VECTOR_JSON) && CanonicalPayload(PAYLOAD) == Ascii(VECTOR_JSON)
  {
    PayloadIsWellFormed();
    PayloadIsBare();
    OrderedIsOrdered();
    SameMeaning();
    CanonExactly(PAYLOAD, ORDERED);
    OrderedText();
  }

  /** The four lines before the payload. */
  function Head(event: string, time: string, nonce: string): string {
    "v1" + ("\n" + event) + ("\n" + time) + (("\n" + nonce) + "\n")
  }

  /** A newline before a text. */
  lemma OnNewLine(text: string)
    requires IsAscii(text)
    ensures IsAscii("\n" + text) && Ascii("\n" + text) == [NEWLINE] + Ascii(text)
  {
  }

  lemma HeadAscii(event: string, time: string, nonce: string)
    requires IsAscii(event) && IsAscii(time) && IsAscii(nonce)
    ensures IsAscii(Head(event, time, nonce))
    ensures Ascii(Head(event, time, nonce))
      == (SCHEME + ([NEWLINE] + Ascii(event))) + ([NEWLINE] + Ascii(time)) + (([NEWLINE] + Ascii(nonce)) + [NEWLINE])
  {
    OnNewLine(event);
    OnNewLine(time);
    OnNewLine(nonce);
    assert Ascii("v1") == SCHEME && Ascii("\n") == [NEWLINE];
    AsciiTogether("v1", "\n" + event);
    AsciiTogether("\n" + nonce, "\n");
    AsciiTogether("v1" + ("\n" + event), "\n" + time);
    AsciiTogether("v1" + ("\n" + event) + ("\n" + time), ("\n" + nonce) + "\n");
  }

  lemma FourLines(v: JsString, nl: JsString, e: JsString, t: JsString, n: JsString, body: JsString)
    ensures ((v + (nl + e)) + (nl + t) + ((nl + n) + nl)) + body
      == v + (nl + (e + (nl + (t + (nl + (n + (nl + body)))))))
  {
  }

  lemma JoinedAscii(event: string, time: string, nonce: string, body: JsString)
    requires IsAscii(event) && IsAscii(time) && IsAscii(nonce)
    ensures IsAscii(Head(event, time, nonce))
    ensures JoinedLines(Ascii(event), Ascii(time), Ascii(nonce), body) == Ascii(Head(event, time, nonce)) + body
  {
    HeadAscii(event, time, nonce);
    FourLines(SCHEME, [NEWLINE], Ascii(event), Ascii(time), Ascii(nonce), body);
  }

  lemma HeadStarts()
    ensures "v1" + ("\n" + "service-status") + ("\n" + "1756000000000") == "v1\nservice-status\n1756000000000"
  {
    assert "v1" + ("\n" + "service-status") == "v1\nservice-status";
  }

  lemma HeadEnds()
    ensures ("\n" + "fixednonce") + "\n" == "\nfixednonce\n"
  {
  }

  lemma HeadLiteral()
    ensures Head("service-status", "1756000000000", "fixednonce")
      == "v1\nservice-status\n1756000000000\nfixednonce\n"
  {
    HeadStarts();
    HeadEnds();
  }

  /**
   The fixed vector of the two repositories: the text signed for the event `service-status` at 1756000000000
   with the nonce `fixednonce` and the payload above.
   */
  lemma FixedVector(host: Host, secret: JsString)
    ensures WellFormed(PAYLOAD) && IsAscii(VECTOR_JSON)
    ensures
      Digest(host, Ascii("service-status"), Finite(Ascii("1756000000000")), Ascii("fixednonce"), PAYLOAD, secret)
        == host.hmac(secret, Ascii("v1\nservice-status\n1756000000000\nfixednonce\n") + Ascii(VECTOR_JSON))
  {
    VectorText();
    JoinedAscii("service-status", "1756000000000", "fixednonce", Ascii(VECTOR_JSON));
    HeadLiteral();
  }
}
