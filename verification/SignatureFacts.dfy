/**
 What the signature envelope is for: a signed payload verifies after any trip through JSON text and any
 reordering of its keys, what verifies was signed, and what is turned away leaves no nonce behind.
 */
module SignatureFacts {
  import opened Options
  import opened JsonText
  import opened PropertyOrder
  import opened Canonical
  import opened ReplayGuards
  import opened Signing

  // ---- comparing digests -------------------------------------------------------------------------

  predicate AllLowerHex(s: JsString) {
    forall k :: 0 <= k < |s| ==> IsLowerHexUnit(s[k])
  }

  /** The digits that make whole bytes: Buffer.from drops a dangling one. */
  function WholeBytes(s: JsString): JsString {
    s[..|s| - |s| % 2]
  }

  lemma {:induction false} HexBytesCount(s: JsString)
    requires AllLowerHex(s)
    ensures |HexBytes(s)| == |s| / 2
    decreases |s|
  {
    if |s| >= 2 { HexBytesCount(s[2..]); }
  }

  lemma WholeBytesStep(a: JsString, b: JsString)
    requires |a| >= 2 && |b| >= 2
    ensures WholeBytes(a) == WholeBytes(b) <==>
      a[0] == b[0] && a[1] == b[1] && WholeBytes(a[2..]) == WholeBytes(b[2..])
  {
    var x, y := WholeBytes(a), WholeBytes(b);
    assert x[2..] == WholeBytes(a[2..]) && y[2..] == WholeBytes(b[2..]);
    assert x == [x[0], x[1]] + x[2..] && y == [y[0], y[1]] + y[2..];
  }

  lemma SameBytes(a: JsString, b: JsString)
    requires AllLowerHex(a) && AllLowerHex(b) && |a| >= 2 && |b| >= 2
    ensures HexBytes(a) == HexBytes(b) <==>
      a[0] == b[0] && a[1] == b[1] && HexBytes(a[2..]) == HexBytes(b[2..])
  {
    var x, y := HexBytes(a), HexBytes(b);
    assert x[1..] == HexBytes(a[2..]) && y[1..] == HexBytes(b[2..]);
    assert x == y <==> x[0] == y[0] && x[1..] == y[1..] by {
      assert x == [x[0]] + x[1..] && y == [y[0]] + y[1..];
    }
  }

  lemma {:induction false} HexBytesAreExact(a: JsString, b: JsString)
    requires AllLowerHex(a) && AllLowerHex(b)
    ensures HexBytes(a) == HexBytes(b) <==> WholeBytes(a) == WholeBytes(b)
    decreases |a|
  {
    if |a| < 2 || |b| < 2 {
      HexBytesCount(a);
      HexBytesCount(b);
    } else {
      HexBytesAreExact(a[2..], b[2..]);
      SameBytes(a, b);
      WholeBytesStep(a, b);
    }
  }

  /** A signature compares equal to a digest exactly when its whole bytes spell it, in either case. */
  lemma EqualHexExactly(signature: JsString, digest: JsString)
    requires IsHexText(signature) && IsHexDigest(digest)
    ensures EqualHex(signature, digest) <==> WholeBytes(Lowered(signature)) == digest
  {
    assert Lowered(digest) == digest;
    assert WholeBytes(digest) == digest;
    HexBytesAreExact(Lowered(signature), digest);
    HexBytesCount(digest);
  }

  /** The same text but for the case of the letters a to f. */
  predicate SameButForCase(a: JsString, b: JsString) {
    |a| == |b| && forall k :: 0 <= k < |a| ==>
      a[k] == b[k] || (0x41 <= a[k] <= 0x46 && b[k] == a[k] + 0x20) || (0x41 <= b[k] <= 0x46 && a[k] == b[k] + 0x20)
  }

  /** Signatures are compared without regard to letter case. */
  lemma CaseDoesNotMatter(a: JsString, b: JsString, digest: JsString)
    requires SameButForCase(a, b)
    ensures (IsHexText(a) <==> IsHexText(b)) && (EqualHex(a, digest) <==> EqualHex(b, digest))
  {
    assert Lowered(a) == Lowered(b);
  }

  // ---- fields of the envelope --------------------------------------------------------------------

  lemma NotAgain(props: seq<Prop>)
    requires Distinct(props) && props != []
    ensures forall q :: q in props[1..] ==> q.key != props[0].key
  {
    forall q | q in props[1..] ensures q.key != props[0].key {
      var k :| 0 <= k < |props[1..]| && props[1..][k] == q;
      assert props[k + 1] == q;
    }
  }

  lemma {:induction false} FieldAbsent(props: seq<Prop>, key: JsString)
    requires forall q :: q in props ==> q.key != key
    ensures Field(props, key) == Undefined && key !in MeaningProps(props)
    decreases |props|
  {
    if props != [] {
      assert props[0] in props;
      FieldAbsent(props[1..], key);
    }
  }

  lemma {:induction false} FieldMeaning(props: seq<Prop>, key: JsString)
    requires Distinct(props) && key != PROTO
    ensures Field(props, key) != Undefined <==> key in MeaningProps(props)
    ensures key in MeaningProps(props) ==> MeaningProps(props)[key] == Meaning(Field(props, key))
    decreases |props|
  {
    if props != [] {
      FieldMeaning(props[1..], key);
      if props[0].key == key {
        NotAgain(props);
        FieldAbsent(props[1..], key);
      }
    }
  }

  lemma {:induction false} WithFieldElements(props: seq<Prop>, key: JsString, value: Js)
    requires Distinct(props)
    ensures forall q :: q in WithField(props, key, value) <==> q == Prop(key, value) || (q in props && q.key != key)
    decreases |props|
  {
    if props != [] {
      WithFieldElements(props[1..], key, value);
      NotAgain(props);
      assert props == [props[0]] + props[1..];
    }
  }

  lemma {:induction false} WithFieldShape(props: seq<Prop>, key: JsString, value: Js)
    requires Distinct(props) && WellFormedProps(props) && WellFormed(value)
    ensures Distinct(WithField(props, key, value)) && WellFormedProps(WithField(props, key, value))
    decreases |props|
  {
    if props != [] {
      WithFieldShape(props[1..], key, value);
      WithFieldElements(props[1..], key, value);
      NotAgain(props);
    }
  }

  lemma {:induction false} WithFieldMeaning(props: seq<Prop>, key: JsString, value: Js)
    requires Distinct(props) && key != PROTO && value != Undefined
    ensures MeaningProps(WithField(props, key, value)) == MeaningProps(props)[key := Meaning(value)]
    decreases |props|
  {
    if props != [] {
      WithFieldMeaning(props[1..], key, value);
    }
  }

  lemma {:induction false} StrippedMeaning(keep: Prop -> bool, props: seq<Prop>)
    requires Distinct(props) && forall p :: keep(p) <==> !IsEnvelope(p)
    ensures MeaningProps(Filtered(keep, props)) == MeaningProps(props) - ENVELOPE_FIELDS
    decreases |props|
  {
    if props != [] {
      StrippedMeaning(keep, props[1..]);
      if IsEnvelope(props[0]) {
        var tail := MeaningProps(props[1..]);
        assert tail[props[0].key := Meaning(props[0].value)] - ENVELOPE_FIELDS == tail - ENVELOPE_FIELDS;
        assert Filtered(keep, props) == Filtered(keep, props[1..]);
      }
    }
  }

  /** The envelope does not change what is signed. */
  lemma MeaningOfStripped(a: Js, b: Js)
    requires WellFormed(a) && WellFormed(b) && a.Obj? && b.Obj?
    requires MeaningProps(a.props) - ENVELOPE_FIELDS == MeaningProps(b.props) - ENVELOPE_FIELDS
    ensures Meaning(Stripped(a)) == Meaning(Stripped(b))
  {
    StrippedMeaning((p: Prop) => !IsEnvelope(p), a.props);
    StrippedMeaning((p: Prop) => !IsEnvelope(p), b.props);
  }

  lemma SignedShape(host: Host, event: JsString, payload: Js, secret: Option<JsString>, now: JsNumber, nonce: JsString)
    requires WellFormed(payload) && payload.Obj? && HasSecret(secret) && NumberOk(now)
    ensures var signed := Sign(host, event, payload, secret, now, nonce);
      signed.Obj? && WellFormed(signed)
      && MeaningProps(signed.props) == MeaningProps(payload.props)
        [TIMESTAMP_FIELD := Meaning(Num(now))][NONCE_FIELD := JString(nonce)]
        [SIGNATURE_FIELD := JString(Digest(host, event, now, nonce, payload, secret.value))]
  {
    var a := WithField(payload.props, TIMESTAMP_FIELD, Num(now));
    var b := WithField(a, NONCE_FIELD, Str(nonce));
    var signature := Str(Digest(host, event, now, nonce, payload, secret.value));
    WithFieldShape(payload.props, TIMESTAMP_FIELD, Num(now));
    WithFieldMeaning(payload.props, TIMESTAMP_FIELD, Num(now));
    WithFieldShape(a, NONCE_FIELD, Str(nonce));
    WithFieldMeaning(a, NONCE_FIELD, Str(nonce));
    WithFieldShape(b, SIGNATURE_FIELD, signature);
    WithFieldMeaning(b, SIGNATURE_FIELD, signature);
  }

  /** What signing adds to the fields of a payload. */
  lemma SignedFields(host: Host, event: JsString, payload: Js, secret: Option<JsString>, now: JsNumber, nonce: JsString)
    requires WellFormed(payload) && payload.Obj? && HasSecret(secret) && NumberOk(now)
    ensures var signed := Sign(host, event, payload, secret, now, nonce);
      signed.Obj? && WellFormed(signed)
      && MeaningProps(signed.props) == MeaningProps(payload.props)
        [Ascii("_ts") := Meaning(Num(now))][Ascii("_nonce") := JString(nonce)]
        [Ascii("_sig") := JString(Digest(host, event, now, nonce, payload, secret.value))]
  {
    assert TIMESTAMP_FIELD == Ascii("_ts") && NONCE_FIELD == Ascii("_nonce") && SIGNATURE_FIELD == Ascii("_sig");
    SignedShape(host, event, payload, secret, now, nonce);
  }

  // ---- sign, send, verify ------------------------------------------------------------------------

  predicate IsFiniteNumber(n: JsNumber) {
    !n.NaN? && !n.Infinity?
  }

  /** The three fields are apart from each other and from everything else. */
  lemma EnvelopeIsApart(base: map<JsString, Json>, time: Json, nonce: Json, signature: Json)
    ensures var m := base[TIMESTAMP_FIELD := time][NONCE_FIELD := nonce][SIGNATURE_FIELD := signature];
      && TIMESTAMP_FIELD in m && m[TIMESTAMP_FIELD] == time && NONCE_FIELD in m && m[NONCE_FIELD] == nonce
      && SIGNATURE_FIELD in m && m[SIGNATURE_FIELD] == signature
      && m - ENVELOPE_FIELDS == base - ENVELOPE_FIELDS
    ensures PROTO !in ENVELOPE_FIELDS
  {
    assert SIGNATURE_FIELD[1] == 0x73 && TIMESTAMP_FIELD[1] == 0x74 && NONCE_FIELD[1] == 0x6e && PROTO[1] == 0x5f;
  }

  /** A defined value that means a string is that string. */
  lemma MeansString(v: Js, s: JsString)
    requires Meaning(v) == JString(s)
    ensures v == Str(s)
  {
  }

  /** The envelope as it is read off a payload that means the same as the signed one. */
  lemma EnvelopeArrives(
      host: Host, event: JsString, payload: Js, secret: Option<JsString>, now: JsNumber, nonce: JsString, received: Js)
    requires WellFormed(payload) && payload.Obj? && HasSecret(secret) && NumberOk(now)
    requires WellFormed(received) && Meaning(received) == Meaning(Sign(host, event, payload, secret, now, nonce))
    ensures received.Obj?
    ensures Field(received.props, SIGNATURE_FIELD) == Str(Digest(host, event, now, nonce, payload, secret.value))
    ensures Field(received.props, NONCE_FIELD) == Str(nonce)
    ensures var t := Field(received.props, TIMESTAMP_FIELD); t != Undefined && Meaning(t) == Meaning(Num(now))
    ensures Meaning(Stripped(received)) == Meaning(Stripped(payload))
  {
    SignedShape(host, event, payload, secret, now, nonce);
    var signature := Digest(host, event, now, nonce, payload, secret.value);
    EnvelopeIsApart(MeaningProps(payload.props), Meaning(Num(now)), JString(nonce), JString(signature));
    assert received.Obj?;
    FieldMeaning(received.props, SIGNATURE_FIELD);
    FieldMeaning(received.props, NONCE_FIELD);
    FieldMeaning(received.props, TIMESTAMP_FIELD);
    MeansString(Field(received.props, SIGNATURE_FIELD), signature);
    MeansString(Field(received.props, NONCE_FIELD), nonce);
    MeaningOfStripped(received, payload);
  }

  /** Numbers with the same meaning are signed alike and stand for the same time. */
  lemma SameNumber(host: Host, a: Js, b: JsNumber)
    requires HostOk(host) && a != Undefined && Meaning(a) == Meaning(Num(b))
    ensures (a.Num? && IsFiniteNumber(a.n)) == IsFiniteNumber(b)
    ensures IsFiniteNumber(b) ==> NumberText(a.n) == NumberText(b) && TimeOf(host, a.n) == TimeOf(host, b)
  {
  }

  lemma DigestEqualsItself(digest: JsString)
    requires IsHexDigest(digest)
    ensures IsHexText(digest) && EqualHex(digest, digest)
  {
    assert Lowered(digest) == digest && WholeBytes(digest) == digest;
    EqualHexExactly(digest, digest);
  }

  lemma SignatureHolds(
      host: Host, event: JsString, payload: Js, secret: Option<JsString>, now: JsNumber, nonce: JsString, received: Js)
    requires HostOk(host) && WellFormed(payload) && payload.Obj? && HasSecret(secret) && NumberOk(now)
    requires WellFormed(received) && Meaning(received) == Meaning(Sign(host, event, payload, secret, now, nonce))
    requires IsFiniteNumber(now) && nonce != []
    ensures var c := CheckSignature(host, event, received, secret);
      c.Signed? && c.nonce == nonce && TimeOf(host, c.timestamp) == TimeOf(host, now)
  {
    EnvelopeArrives(host, event, payload, secret, now, nonce, received);
    var t := Field(received.props, TIMESTAMP_FIELD);
    SameNumber(host, t, now);
    StrippedIsWellFormed(payload);
    StrippedIsWellFormed(received);
    CanonicalizationIsExact(Stripped(payload), Stripped(received));
    var digest := Digest(host, event, now, nonce, payload, secret.value);
    assert digest == Digest(host, event, t.n, nonce, received, secret.value);
    DigestEqualsItself(digest);
  }

  /** A signed payload whose time or nonce is no good is turned away for just that. */
  lemma UnusableEnvelope(
      host: Host, event: JsString, payload: Js, secret: Option<JsString>, now: JsNumber, nonce: JsString, received: Js)
    requires HostOk(host) && WellFormed(payload) && payload.Obj? && HasSecret(secret) && NumberOk(now)
    requires WellFormed(received) && Meaning(received) == Meaning(Sign(host, event, payload, secret, now, nonce))
    requires !IsFiniteNumber(now) || nonce == []
    ensures CheckSignature(host, event, received, secret)
      == Rejected(if !IsFiniteNumber(now) then MissingTimestamp else MissingNonce)
  {
    EnvelopeArrives(host, event, payload, secret, now, nonce, received);
    SameNumber(host, Field(received.props, TIMESTAMP_FIELD), now);
    assert IsHexDigest(Digest(host, event, now, nonce, payload, secret.value));
  }

  /** What verify answers to a payload signed with this event and secret, whatever else happened to it. */
  function ExpectedAnswer(host: Host, sentAt: JsNumber, nonce: JsString, now: real, maxSkewMs: real, windowMs: real,
                          seen: Memory): VerifyResult
  {
    if !IsFiniteNumber(sentAt) then Failed(MissingTimestamp)
    else if nonce == [] then Failed(MissingNonce)
    else if maxSkewMs > 0.0 && Abs(now - TimeOf(host, sentAt)) > maxSkewMs then Failed(Expired)
    else if nonce in Pruned(seen, windowMs, TimeOf(host, sentAt)) then Failed(ReplayedNonce)
    else Ok
  }

  /**
   Sign, send, verify: any received value that means what was signed, however its keys are ordered, gets an
   answer that depends on nothing but the timestamp, the nonce, the clock and the guard.
   */
  lemma SignedPayloadVerifies(
      host: Host, event: JsString, payload: Js, secret: Option<JsString>, sentAt: JsNumber, nonce: JsString,
      received: Js, now: real, maxSkewMs: real, windowMs: real, seen: Memory)
    requires HostOk(host) && WellFormed(payload) && payload.Obj? && HasSecret(secret) && NumberOk(sentAt)
    requires WellFormed(received) && Meaning(received) == Meaning(Sign(host, event, payload, secret, sentAt, nonce))
    ensures VerifyOutcome(host, event, received, secret, now, maxSkewMs, windowMs, seen).1
      == ExpectedAnswer(host, sentAt, nonce, now, maxSkewMs, windowMs, seen)
  {
    if IsFiniteNumber(sentAt) && nonce != [] {
      SignatureHolds(host, event, payload, secret, sentAt, nonce, received);
    } else {
      UnusableEnvelope(host, event, payload, secret, sentAt, nonce, received);
    }
  }

  lemma InTimeAndNew(host: Host, sentAt: JsNumber, nonce: JsString, now: real, maxSkewMs: real, windowMs: real,
                     seen: Memory)
    requires IsFiniteNumber(sentAt) && nonce != [] && Abs(now - TimeOf(host, sentAt)) <= maxSkewMs && nonce !in seen
    ensures ExpectedAnswer(host, sentAt, nonce, now, maxSkewMs, windowMs, seen) == Ok
  {
  }

  /** The same across the wire: the text JSON.stringify sends is parsed, and keys may move at every depth. */
  lemma SentPayloadVerifies(
      host: Host, event: JsString, payload: Js, secret: Option<JsString>, sentAt: JsNumber, nonce: JsString,
      parsed: Js, received: Js, now: real, maxSkewMs: real, windowMs: real, seen: Memory)
    requires HostOk(host) && WellFormed(payload) && payload.Obj? && HasSecret(secret) && NumberOk(sentAt)
    requires IsFiniteNumber(sentAt) && nonce != []
    requires WellFormed(parsed) && parsed != Undefined && WellFormed(received)
    requires Printable(JsonView(parsed)) && Printable(JsonView(Sign(host, event, payload, secret, sentAt, nonce)))
    requires Text(JsonView(parsed)) == Text(JsonView(Sign(host, event, payload, secret, sentAt, nonce)))
    requires Meaning(received) == Meaning(parsed)
    requires Abs(now - TimeOf(host, sentAt)) <= maxSkewMs && nonce !in seen
    ensures VerifyOutcome(host, event, received, secret, now, maxSkewMs, windowMs, seen).1 == Ok
  {
    var signed := Sign(host, event, payload, secret, sentAt, nonce);
    SignedShape(host, event, payload, secret, sentAt, nonce);
    TransportKeepsMeaning(signed, parsed);
    InTimeAndNew(host, sentAt, nonce, now, maxSkewMs, windowMs, seen);
    SignedPayloadVerifies(host, event, payload, secret, sentAt, nonce, received, now, maxSkewMs, windowMs, seen);
  }

  // ---- what verifies was signed ------------------------------------------------------------------

  /** The whole condition under which a payload gets past the signature check. */
  lemma SignatureCheckExactly(host: Host, event: JsString, payload: Js, secret: Option<JsString>)
    requires HostOk(host) && WellFormed(payload)
    ensures CheckSignature(host, event, payload, secret).Signed? <==>
      && HasSecret(secret) && payload.Obj?
      && Field(payload.props, SIGNATURE_FIELD).Str? && IsHexText(Field(payload.props, SIGNATURE_FIELD).s)
      && Field(payload.props, TIMESTAMP_FIELD).Num? && IsFiniteNumber(Field(payload.props, TIMESTAMP_FIELD).n)
      && Field(payload.props, NONCE_FIELD).Str? && Field(payload.props, NONCE_FIELD).s != []
      && WholeBytes(Lowered(Field(payload.props, SIGNATURE_FIELD).s))
           == Digest(host, event, Field(payload.props, TIMESTAMP_FIELD).n, Field(payload.props, NONCE_FIELD).s,
                     payload, secret.value)
  {
    if HasSecret(secret) && payload.Obj? {
      var signature, timestamp, nonce :=
        Field(payload.props, SIGNATURE_FIELD), Field(payload.props, TIMESTAMP_FIELD), Field(payload.props, NONCE_FIELD);
      if signature.Str? && timestamp.Num? && nonce.Str? && IsHexText(signature.s) {
        EqualHexExactly(signature.s, Digest(host, event, timestamp.n, nonce.s, payload, secret.value));
      }
    }
  }

  /** Two signed strings with one digest. */
  predicate Collides(host: Host, secret: JsString, a: JsString, b: JsString) {
    a != b && host.hmac(secret, a) == host.hmac(secret, b)
  }

  lemma {:induction false} FieldIsWellFormed(props: seq<Prop>, key: JsString)
    requires WellFormedProps(props)
    ensures WellFormed(Field(props, key))
    decreases |props|
  {
    if props != [] { FieldIsWellFormed(props[1..], key); }
  }

  /**
   One signature covers one message: if it passes for two payloads, in whatever event, they agree on event,
   timestamp, nonce and content, unless the digest itself collides.
   */
  lemma OneSignatureOneMessage(
      host: Host, event: JsString, payload: Js, event': JsString, payload': Js, secret: Option<JsString>)
    requires HostOk(host) && WellFormed(payload) && WellFormed(payload')
    requires NEWLINE !in event && NEWLINE !in event'
    requires CheckSignature(host, event, payload, secret).Signed?
    requires CheckSignature(host, event', payload', secret).Signed?
    requires Field(payload.props, SIGNATURE_FIELD) == Field(payload'.props, SIGNATURE_FIELD)
    ensures var c, c' := CheckSignature(host, event, payload, secret), CheckSignature(host, event', payload', secret);
      || Collides(host, secret.value, SigningMaterial(event, c.timestamp, c.nonce, payload),
                  SigningMaterial(event', c'.timestamp, c'.nonce, payload'))
      || (event == event' && c.nonce == c'.nonce && NumberText(c.timestamp) == NumberText(c'.timestamp)
          && Meaning(Stripped(payload)) == Meaning(Stripped(payload')))
  {
    SignatureCheckExactly(host, event, payload, secret);
    SignatureCheckExactly(host, event', payload', secret);
    var c, c' := CheckSignature(host, event, payload, secret), CheckSignature(host, event', payload', secret);
    FieldIsWellFormed(payload.props, TIMESTAMP_FIELD);
    FieldIsWellFormed(payload'.props, TIMESTAMP_FIELD);
    SigningMaterialIsDecodable(event, c.timestamp, c.nonce, payload, event', c'.timestamp, c'.nonce, payload');
  }

  // ---- what a payload is turned away for ---------------------------------------------------------

  /** A payload with the envelope of the signed one, whatever else it holds. */
  predicate KeepsEnvelope(received: Js, signature: JsString, now: JsNumber, nonce: JsString) {
    && received.Obj?
    && Field(received.props, SIGNATURE_FIELD) == Str(signature)
    && Field(received.props, TIMESTAMP_FIELD) == Num(now)
    && Field(received.props, NONCE_FIELD) == Str(nonce)
  }

  /**
   A signature moved to another content, event or secret is turned away as invalid, unless the digests of the
   two happen to be the same.
   */
  lemma AlteredIsInvalid(
      host: Host, event: JsString, payload: Js, secret: JsString, now: JsNumber, nonce: JsString,
      event': JsString, received: Js, secret': JsString)
    requires HostOk(host) && WellFormed(payload) && WellFormed(received) && secret != [] && secret' != []
    requires NumberOk(now) && IsFiniteNumber(now) && nonce != [] && NEWLINE !in event && NEWLINE !in event'
    requires KeepsEnvelope(received, Digest(host, event, now, nonce, payload, secret), now, nonce)
    requires secret' != secret || event' != event || Meaning(Stripped(received)) != Meaning(Stripped(payload))
    ensures
      var text, text' := SigningMaterial(event, now, nonce, payload), SigningMaterial(event', now, nonce, received);
      && (secret' == secret ==> text' != text)
      && CheckSignature(host, event', received, Some(secret'))
           == if host.hmac(secret', text') == host.hmac(secret, text) then Signed(nonce, now)
              else Rejected(InvalidSignature)
  {
    SigningMaterialIsDecodable(event, now, nonce, payload, event', now, nonce, received);
    var digest, digest' :=
      Digest(host, event, now, nonce, payload, secret), Digest(host, event', now, nonce, received, secret');
    assert IsHexDigest(digest) && IsHexDigest(digest');
    DigestEqualsItself(digest);
    EqualHexExactly(digest, digest');
    assert Lowered(digest) == digest && WholeBytes(digest) == digest;
  }

  /** A damaged envelope is turned away for the damage, whatever its signature would have been worth. */
  lemma DamageIsNamed(host: Host, event: JsString, received: Js, secret: JsString)
    requires WellFormed(received) && secret != []
    ensures var c := CheckSignature(host, event, received, Some(secret));
      && (!received.Obj? ==> c == Rejected(MissingSignature))
      && (received.Obj? ==>
            var s, t, n := Field(received.props, SIGNATURE_FIELD), Field(received.props, TIMESTAMP_FIELD),
                           Field(received.props, NONCE_FIELD);
            var signs, dates, names := s.Str? && s.s != [], t.Num? && IsFiniteNumber(t.n), n.Str? && n.s != [];
            && (!signs <==> c == Rejected(MissingSignature))
            && (signs && !dates <==> c == Rejected(MissingTimestamp))
            && (signs && dates && !names <==> c == Rejected(MissingNonce))
            && (signs && dates && names && (exists k :: 0 <= k < |s.s| && !IsLowerHexUnit(LowerHex(s.s[k]))) <==>
                  c == Rejected(MalformedSignature)))
  {
  }

  /** Without a secret nothing is signed and nothing verifies: the payload stays as it is. */
  lemma UnsignedStaysBare(host: Host, event: JsString, payload: Js, secret: Option<JsString>, now: JsNumber,
                          nonce: JsString, receiver: Option<JsString>)
    requires WellFormed(payload) && payload.Obj? && !HasSecret(secret)
    requires Field(payload.props, SIGNATURE_FIELD) == Undefined
    ensures Sign(host, event, payload, secret, now, nonce) == payload
    ensures CheckSignature(host, event, Sign(host, event, payload, secret, now, nonce), receiver)
      == Rejected(if receiver.None? || receiver.value == [] then NoSecret else MissingSignature)
  {
  }
}
