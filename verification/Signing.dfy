/**
 The string that is signed, the signature envelope, and its verification. HMAC-SHA256 (section 2 of
 RFC 2104) and the numeric value of a number's text are parameters: every result holds for any of them.
 */
module Signing {
  import opened Options
  import opened JsonText
  import opened JsonUnambiguous
  import opened PropertyOrder
  import opened Canonical
  import opened ReplayGuards

  const SIGNATURE_FIELD: JsString := [0x5f, 0x73, 0x69, 0x67]
  const TIMESTAMP_FIELD: JsString := [0x5f, 0x74, 0x73]
  const NONCE_FIELD: JsString := [0x5f, 0x6e, 0x6f, 0x6e, 0x63, 0x65]
  const ENVELOPE_FIELDS := {SIGNATURE_FIELD, TIMESTAMP_FIELD, NONCE_FIELD}

  /** `v` and SIGNATURE_SCHEME_VERSION. */
  const SCHEME: JsString := [0x76, 0x31]

  const NAN_TEXT: JsString := [0x4e, 0x61, 0x4e]
  const INFINITY_TEXT: JsString := [0x49, 0x6e, 0x66, 0x69, 0x6e, 0x69, 0x74, 0x79]

  // ---- the signed string -------------------------------------------------------------------------

  /** String(timestamp). */
  function NumberText(n: JsNumber): JsString {
    match n
    case NaN => NAN_TEXT
    case Infinity(negative) => if negative then [MINUS] + INFINITY_TEXT else INFINITY_TEXT
    case NegativeZero => ZERO_TEXT
    case Finite(text) => text
  }

  predicate IsEnvelope(p: Prop) {
    p.key in ENVELOPE_FIELDS
  }

  /** stripEnvelope: the signature cannot cover itself. */
  function Stripped(payload: Js): Js {
    if payload.Obj? then Obj(Filtered((p: Prop) => !IsEnvelope(p), payload.props)) else payload
  }

  lemma FilteredKeepsShape(keep: Prop -> bool, props: seq<Prop>)
    requires Distinct(props) && WellFormedProps(props)
    ensures Distinct(Filtered(keep, props)) && WellFormedProps(Filtered(keep, props))
  {
    FilteredIsDistinct(keep, props);
    FilteredElements(keep, props);
    WellFormedElements(props);
    WellFormedElements(Filtered(keep, props));
  }

  lemma StrippedIsWellFormed(payload: Js)
    requires WellFormed(payload)
    ensures WellFormed(Stripped(payload))
  {
    if payload.Obj? { FilteredKeepsShape((p: Prop) => !IsEnvelope(p), payload.props); }
  }

  function CanonicalPayload(payload: Js): JsString
    requires WellFormed(payload)
  {
    StrippedIsWellFormed(payload);
    Canonicalized(Stripped(payload))
  }

  function SigningMaterial(event: JsString, timestamp: JsNumber, nonce: JsString, payload: Js): JsString
    requires WellFormed(payload)
  {
    JoinedLines(event, NumberText(timestamp), nonce, CanonicalPayload(payload))
  }

  /** [`v1`, event, time, nonce, body].join('\n') */
  function JoinedLines(event: JsString, time: JsString, nonce: JsString, body: JsString): JsString {
    SCHEME + ([NEWLINE] + (event + ([NEWLINE] + (time + ([NEWLINE] + (nonce + ([NEWLINE] + body)))))))
  }

  /** The first line of a text is what precedes its first newline. */
  lemma FirstLineIsUnique(a: JsString, x: JsString, b: JsString, y: JsString)
    requires NEWLINE !in a && NEWLINE !in b && a + ([NEWLINE] + x) == b + ([NEWLINE] + y)
    ensures a == b && x == y
  {
    var s := a + ([NEWLINE] + x);
    assert s[|a|] == NEWLINE && s[|b|] == NEWLINE;
    assert forall k :: 0 <= k < |a| ==> s[k] == a[k];
    assert forall k :: 0 <= k < |b| ==> s[k] == b[k];
    Cancel(a, [NEWLINE] + x, b, [NEWLINE] + y);
    Cancel([NEWLINE], x, [NEWLINE], y);
  }

  /** The last line of a text is what follows its last newline. */
  lemma LastLineIsUnique(a: JsString, x: JsString, b: JsString, y: JsString)
    requires NEWLINE !in x && NEWLINE !in y && a + ([NEWLINE] + x) == b + ([NEWLINE] + y)
    ensures a == b && x == y
  {
    var s := a + ([NEWLINE] + x);
    assert s[|a|] == NEWLINE && s[|b|] == NEWLINE;
    assert forall k :: |a| < k < |s| ==> s[k] == x[k - |a| - 1];
    assert forall k :: |b| < k < |s| ==> s[k] == y[k - |b| - 1];
    Cancel(a, [NEWLINE] + x, b, [NEWLINE] + y);
    Cancel([NEWLINE], x, [NEWLINE], y);
  }

  /** Only the nonce may contain newlines: the other parts are found from both ends. */
  lemma JoinedLinesAreUnique(
      event: JsString, time: JsString, nonce: JsString, body: JsString,
      event': JsString, time': JsString, nonce': JsString, body': JsString)
    requires NEWLINE !in event && NEWLINE !in time && NEWLINE !in body
    requires NEWLINE !in event' && NEWLINE !in time' && NEWLINE !in body'
    requires JoinedLines(event, time, nonce, body) == JoinedLines(event', time', nonce', body')
    ensures event == event' && time == time' && nonce == nonce' && body == body'
  {
    var c, c' := nonce + ([NEWLINE] + body), nonce' + ([NEWLINE] + body');
    var b, b' := time + ([NEWLINE] + c), time' + ([NEWLINE] + c');
    FirstLineIsUnique(SCHEME, event + ([NEWLINE] + b), SCHEME, event' + ([NEWLINE] + b'));
    FirstLineIsUnique(event, b, event', b');
    FirstLineIsUnique(time, c, time', c');
    LastLineIsUnique(nonce, body, nonce', body');
  }

  predicate NumberOk(n: JsNumber) {
    n.Finite? ==> IsNumeral(n.text)
  }

  lemma PartsHaveNoNewline(timestamp: JsNumber, payload: Js)
    requires WellFormed(payload) && NumberOk(timestamp)
    ensures NEWLINE !in NumberText(timestamp) && NEWLINE !in CanonicalPayload(payload)
  {
    StrippedIsWellFormed(payload);
    CanonIsPrintable(Stripped(payload));
    TextHasNoNewline(Canon(Stripped(payload)));
  }

  /**
   The signed string determines what was signed and nothing more: for event names without a newline, equal
   strings mean equal event, timestamp text, nonce (newlines or not) and meaning of the stripped payload.
   */
  lemma SigningMaterialIsDecodable(
      event: JsString, timestamp: JsNumber, nonce: JsString, payload: Js,
      event': JsString, timestamp': JsNumber, nonce': JsString, payload': Js)
    requires WellFormed(payload) && WellFormed(payload') && NumberOk(timestamp) && NumberOk(timestamp')
    requires NEWLINE !in event && NEWLINE !in event'
    ensures SigningMaterial(event, timestamp, nonce, payload) == SigningMaterial(event', timestamp', nonce', payload')
      <==> event == event' && NumberText(timestamp) == NumberText(timestamp') && nonce == nonce'
           && Meaning(Stripped(payload)) == Meaning(Stripped(payload'))
  {
    StrippedIsWellFormed(payload);
    StrippedIsWellFormed(payload');
    CanonicalizationIsExact(Stripped(payload), Stripped(payload'));
    if SigningMaterial(event, timestamp, nonce, payload) == SigningMaterial(event', timestamp', nonce', payload') {
      PartsHaveNoNewline(timestamp, payload);
      PartsHaveNoNewline(timestamp', payload');
      JoinedLinesAreUnique(event, NumberText(timestamp), nonce, CanonicalPayload(payload),
                           event', NumberText(timestamp'), nonce', CanonicalPayload(payload'));
    }
  }

  // ---- sign --------------------------------------------------------------------------------------

  /** The two functions the model leaves open: HMAC-SHA256 as lower-case hex, and a number's value. */
  datatype Host = Host(hmac: (JsString, JsString) -> JsString, valueOf: JsString -> real)

  predicate IsLowerHexUnit(u: CodeUnit) {
    IsDigit(u) || 0x61 <= u <= 0x66
  }

  /** A digest in hex: a nonempty, even number of lower-case hex digits. */
  predicate IsHexDigest(s: JsString) {
    s != [] && |s| % 2 == 0 && forall k :: 0 <= k < |s| ==> IsLowerHexUnit(s[k])
  }

  ghost predicate HostOk(host: Host) {
    && host.valueOf(ZERO_TEXT) == 0.0
    && forall secret, text :: IsHexDigest(host.hmac(secret, text))
  }

  function Digest(
      host: Host, event: JsString, timestamp: JsNumber, nonce: JsString, payload: Js, secret: JsString): JsString
    requires WellFormed(payload)
  {
    host.hmac(secret, SigningMaterial(event, timestamp, nonce, payload))
  }

  /** An own property set on a copy: replaced where it is, or added at the end. */
  function WithField(props: seq<Prop>, key: JsString, value: Js): seq<Prop> {
    if props == [] then [Prop(key, value)]
    else if props[0].key == key then [Prop(key, value)] + props[1..]
    else [props[0]] + WithField(props[1..], key, value)
  }

  /** A secret that is null, undefined or empty is no secret. */
  predicate HasSecret(secret: Option<JsString>) {
    secret.Some? && secret.value != []
  }

  /** sign, of a plain object. */
  function Sign(host: Host, event: JsString, payload: Js, secret: Option<JsString>, now: JsNumber, nonce: JsString): Js
    requires WellFormed(payload) && payload.Obj?
  {
    if !HasSecret(secret) then payload
    else
      var signature := Digest(host, event, now, nonce, payload, secret.value);
      Obj(WithField(WithField(WithField(payload.props, TIMESTAMP_FIELD, Num(now)), NONCE_FIELD, Str(nonce)),
                    SIGNATURE_FIELD, Str(signature)))
  }

  // ---- verify ------------------------------------------------------------------------------------

  datatype VerifyFailure =
    | NoSecret | MissingSignature | MalformedSignature | MissingTimestamp | MissingNonce
    | Expired | ReplayedNonce | InvalidSignature

  datatype VerifyResult = Ok | Failed(reason: VerifyFailure)

  function Field(props: seq<Prop>, key: JsString): Js {
    if props == [] then Undefined
    else if props[0].key == key then props[0].value
    else Field(props[1..], key)
  }

  function LowerHex(u: CodeUnit): CodeUnit {
    if 0x41 <= u <= 0x46 then u + 0x20 else u
  }

  function Lowered(s: JsString): (r: JsString)
    ensures |r| == |s| && forall k :: 0 <= k < |s| ==> r[k] == LowerHex(s[k])
  {
    seq(|s|, (k: nat) requires k < |s| => LowerHex(s[k]))
  }

  /** /^[0-9a-f]+$/i */
  predicate IsHexText(s: JsString) {
    s != [] && forall k :: 0 <= k < |s| ==> IsLowerHexUnit(LowerHex(s[k]))
  }

  function HexValue(u: CodeUnit): int
    requires IsLowerHexUnit(u)
  {
    if IsDigit(u) then u - 0x30 else u - 0x61 + 10
  }

  /** Buffer.from(s, 'hex'): whole bytes up to the first pair that is not hex. */
  function HexBytes(s: JsString): seq<int> {
    if |s| < 2 || !IsLowerHexUnit(s[0]) || !IsLowerHexUnit(s[1]) then []
    else
      var high: int, low: int := HexValue(s[0]), HexValue(s[1]);
      [16 * high + low] + HexBytes(s[2..])
  }

  /** equalsInConstantTime, for what it answers. */
  predicate EqualHex(left: JsString, right: JsString) {
    var a, b := HexBytes(Lowered(left)), HexBytes(Lowered(right));
    |a| == |b| && |a| != 0 && a == b
  }

  /** Everything verify looks at before the clock: the nonce and timestamp if the signature holds. */
  datatype Checked = Signed(nonce: JsString, timestamp: JsNumber) | Rejected(reason: VerifyFailure)

  function CheckSignature(host: Host, event: JsString, payload: Js, secret: Option<JsString>): Checked
    requires WellFormed(payload)
  {
    if !HasSecret(secret) then Rejected(NoSecret)
    else if !payload.Obj? then Rejected(MissingSignature)
    else
      var signature, timestamp, nonce :=
        Field(payload.props, SIGNATURE_FIELD), Field(payload.props, TIMESTAMP_FIELD), Field(payload.props, NONCE_FIELD);
      if !signature.Str? || signature.s == [] then Rejected(MissingSignature)
      else if !timestamp.Num? || timestamp.n.NaN? || timestamp.n.Infinity? then Rejected(MissingTimestamp)
      else if !nonce.Str? || nonce.s == [] then Rejected(MissingNonce)
      else if !IsHexText(signature.s) then Rejected(MalformedSignature)
      else if !EqualHex(signature.s, Digest(host, event, timestamp.n, nonce.s, payload, secret.value))
      then Rejected(InvalidSignature)
      else Signed(nonce.s, timestamp.n)
  }

  function TimeOf(host: Host, n: JsNumber): real {
    if n.Finite? then host.valueOf(n.text) else 0.0
  }

  /** A skew of 0 or less turns the time check off. */
  predicate TooFarOff(host: Host, timestamp: JsNumber, now: real, maxSkewMs: real) {
    maxSkewMs > 0.0 && Abs(now - TimeOf(host, timestamp)) > maxSkewMs
  }

  /** verify with a replay guard: the guard's memory afterwards, and the answer. */
  function VerifyOutcome(host: Host, event: JsString, payload: Js, secret: Option<JsString>, now: real,
                         maxSkewMs: real, windowMs: real, seen: Memory): (Memory, VerifyResult)
    requires WellFormed(payload)
  {
    match CheckSignature(host, event, payload, secret)
    case Rejected(reason) => (seen, Failed(reason))
    case Signed(nonce, timestamp) =>
      if TooFarOff(host, timestamp, now, maxSkewMs) then (seen, Failed(Expired))
      else
        var (kept, isNew) := Remembered(seen, windowMs, nonce, TimeOf(host, timestamp));
        (kept, if isNew then Ok else Failed(ReplayedNonce))
  }

  method Verify(host: Host, event: JsString, payload: Js, secret: Option<JsString>, now: real, maxSkewMs: real,
                guard: ReplayGuard) returns (r: VerifyResult)
    requires WellFormed(payload)
    modifies guard
    ensures (guard.seen, r) ==
      VerifyOutcome(host, event, payload, secret, now, maxSkewMs, guard.windowMs, old(guard.seen))
  {
    match CheckSignature(host, event, payload, secret) {
      case Rejected(reason) =>
        return Failed(reason);
      case Signed(nonce, timestamp) =>
        if maxSkewMs > 0.0 {
          if Abs(now - TimeOf(host, timestamp)) > maxSkewMs {
            return Failed(Expired);
          }
        }
        var isNew := guard.Remember(nonce, TimeOf(host, timestamp));
        if !isNew {
          return Failed(ReplayedNonce);
        }
        return Ok;
    }
  }
}
