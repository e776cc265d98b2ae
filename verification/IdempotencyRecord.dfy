/**
  The records stored under an idempotency key (internal/interceptor/idempotency.go): the versioned
  envelope, behind the magic "IDR1", and legacy bare TokenPair bytes without it.
 */
module IdempotencyRecord {
  import opened Wrappers
  import opened ByteStrings
  import opened TokenPairWire
  import Base64
  import Json

  const MAGIC: string := "IDR1"
  const PENDING_STATE: string := "pending"
  const COMPLETED_STATE: string := "completed"
  const STATE_MEMBER: string := "{\"state\":"
  const RESPONSE_MEMBER: string := ",\"response\":"
  const FINGERPRINT_MEMBER: string := ",\"fingerprint\":"

  /** idempotencyRecord; the zero value of a field is left out of the JSON. */
  datatype Record = Record(state: string, response: string, fingerprint: string)

  // ----- encoding -----

  function FingerprintThen(fingerprint: string): string {
    if fingerprint == "" then "}" else FINGERPRINT_MEMBER + Json.QuoteThen(fingerprint, "}")
  }

  function ResponseThen(response: string, fingerprint: string): string
    requires IsBytes(response)
  {
    if response == "" then FingerprintThen(fingerprint)
    else RESPONSE_MEMBER + Json.QuoteThen(Base64.Encode(response), FingerprintThen(fingerprint))
  }

  function EncodeRecord(r: Record): string
    requires IsBytes(r.response)
  {
    MAGIC + (STATE_MEMBER + Json.QuoteThen(r.state, ResponseThen(r.response, r.fingerprint)))
  }

  function EncodeCompleted(response: string, fingerprint: string): string
    requires IsBytes(response)
  {
    EncodeRecord(Record(COMPLETED_STATE, response, fingerprint))
  }

  /** The constant SetNX writes to claim a key. */
  const PENDING_RECORD: string := MAGIC + (STATE_MEMBER + "\"pending\"}")

  // ----- decoding -----

  /** What follows prefix in s, if s starts with it. */
  function Strip(prefix: string, s: string): (r: Option<string>)
    ensures r.Some? ==> s == prefix + r.value
  {
    if prefix <= s then Some(s[|prefix|..]) else None
  }

  lemma StripPrefix(prefix: string, rest: string)
    ensures Strip(prefix, prefix + rest) == Some(rest)
  {
    assert (prefix + rest)[|prefix|..] == rest;
  }

  function DecodeFingerprint(s: string): Option<string> {
    if s == "}" then Some("")
    else match Strip(FINGERPRINT_MEMBER, s)
      case None => None
      case Some(t) =>
        match Json.Unquote(t)
        case None => None
        case Some((f, rest)) => if rest == "}" then Some(f) else None
  }

  function DecodeResponse(s: string): Option<(string, string)> {
    match Strip(RESPONSE_MEMBER, s)
    case None => Some(("", s))
    case Some(t) =>
      match Json.Unquote(t)
      case None => None
      case Some((b64, rest)) =>
        match Base64.Decode(b64)
        case None => None
        case Some(response) => Some((response, rest))
  }

  function DecodeBody(body: string): Option<Record> {
    match Strip(STATE_MEMBER, body)
    case None => None
    case Some(s) =>
      match Json.Unquote(s)
      case None => None
      case Some((state, t)) =>
        match DecodeResponse(t)
        case None => None
        case Some((response, u)) =>
          match DecodeFingerprint(u)
          case None => None
          case Some(f) => Some(Record(state, response, f))
  }

  predicate HasMagic(raw: string) {
    MAGIC <= raw
  }

  /** decodeIdempotencyRecord. */
  function Decode(raw: string): Option<Record> {
    match Strip(MAGIC, raw)
    case None => None
    case Some(body) => DecodeBody(body)
  }

  /** What resolveExistingRecord returns. */
  datatype Resolved =
    | Completed(pair: TokenPair, fingerprint: string)
    | StillPending
    | Unreadable(error: WireError)

  function ResolveRecord(rec: Record): Resolved {
    if rec.state == PENDING_STATE then StillPending
    else match Unmarshal(rec.response)
      case Success(pair) => Completed(pair, rec.fingerprint)
      case Failure(e) => Unreadable(e)
  }

  function Resolve(raw: string): Resolved {
    match Decode(raw)
    case Some(rec) => ResolveRecord(rec)
    case None =>
      match Unmarshal(raw)
      case Success(pair) => Completed(pair, "")
      case Failure(e) => Unreadable(e)
  }

  // ----- round trip -----

  lemma DecodeFingerprintThen(fingerprint: string)
    requires ValidUtf8(fingerprint)
    ensures DecodeFingerprint(FingerprintThen(fingerprint)) == Some(fingerprint)
    ensures Strip(RESPONSE_MEMBER, FingerprintThen(fingerprint)) == None
  {
    hide ValidUtf8, Json.QuoteThen, Json.Unquote;
    if fingerprint == "" {
    } else {
      var s := FingerprintThen(fingerprint);
      StripPrefix(FINGERPRINT_MEMBER, Json.QuoteThen(fingerprint, "}"));
      Json.UnquoteQuote(fingerprint, "}");
      assert s[2] == 'f' && RESPONSE_MEMBER[2] == 'r';
      assert |s| > 1;
    }
  }

  lemma DecodeResponseThen(response: string, fingerprint: string)
    requires IsBytes(response) && ValidUtf8(fingerprint)
    ensures DecodeResponse(ResponseThen(response, fingerprint)) == Some((response, FingerprintThen(fingerprint)))
  {
    DecodeFingerprintThen(fingerprint);
    if response != "" {
      var b64 := Base64.Encode(response);
      var rest := FingerprintThen(fingerprint);
      Base64.EncodeIsPlain(response);
      AsciiIsValidUtf8(b64);
      Json.UnquoteQuote(b64, rest);
      Base64.DecodeEncode(response);
      StripPrefix(RESPONSE_MEMBER, Json.QuoteThen(b64, rest));
    }
  }

  /** Every envelope reads back as the record it was made from. */
  lemma DecodeEncodeRecord(r: Record)
    requires ValidUtf8(r.state) && IsBytes(r.response) && ValidUtf8(r.fingerprint)
    ensures Decode(EncodeRecord(r)) == Some(r)
  {
    var tail := ResponseThen(r.response, r.fingerprint);
    var body := STATE_MEMBER + Json.QuoteThen(r.state, tail);
    StripPrefix(MAGIC, body);
    StripPrefix(STATE_MEMBER, Json.QuoteThen(r.state, tail));
    Json.UnquoteQuote(r.state, tail);
    DecodeResponseThen(r.response, r.fingerprint);
    DecodeFingerprintThen(r.fingerprint);
  }

  lemma PendingLiteral()
    ensures Json.QuoteThen(PENDING_STATE, "}") == "\"pending\"}"
  {
    var q := Json.QuoteThen(PENDING_STATE, "}");
    Json.PlainIsVerbatim(PENDING_STATE, "}");
    assert q == "\"" + (PENDING_STATE + "\"" + "}");
    assert |q| == 10;
  }

  /** The pending constant is the envelope of a pending record with nothing else in it. */
  lemma PendingIsEnvelope()
    ensures PENDING_RECORD == EncodeRecord(Record(PENDING_STATE, "", ""))
  {
    PendingLiteral();
    assert ResponseThen("", "") == "}";
  }

  lemma StatesAreValid()
    ensures ValidUtf8(PENDING_STATE) && ValidUtf8(COMPLETED_STATE) && ValidUtf8("")
  {
    hide ValidUtf8;
    AsciiIsValidUtf8("");
    AsciiIsValidUtf8(PENDING_STATE);
    AsciiIsValidUtf8(COMPLETED_STATE);
  }

  /** An envelope resolves by what the record says. */
  lemma ResolveEnvelope(r: Record)
    requires ValidUtf8(r.state) && IsBytes(r.response) && ValidUtf8(r.fingerprint)
    ensures Resolve(EncodeRecord(r)) == ResolveRecord(r)
  {
    hide Decode, EncodeRecord, Unmarshal;
    DecodeEncodeRecord(r);
  }

  lemma ResolvePending()
    ensures Resolve(PENDING_RECORD) == StillPending
  {
    hide Resolve, EncodeRecord, ValidUtf8;
    PendingIsEnvelope();
    StatesAreValid();
    ResolveEnvelope(Record(PENDING_STATE, "", ""));
  }

  lemma ResolveCompletedRecord(response: string, fingerprint: string, p: TokenPair)
    requires Unmarshal(response) == Success(p)
    ensures ResolveRecord(Record(COMPLETED_STATE, response, fingerprint)) == Completed(p, fingerprint)
  {
    hide Unmarshal;
    assert COMPLETED_STATE[0] != PENDING_STATE[0];
  }

  /** A completed record resolves to the pair and fingerprint it was made from, the empty pair included. */
  lemma ResolveCompleted(p: GoPair, fingerprint: string)
    requires Marshal(p).Some? && ValidUtf8(fingerprint)
    ensures IsBytes(Marshal(p).value)
    ensures Resolve(EncodeCompleted(Marshal(p).value, fingerprint)) == Completed(p, fingerprint)
  {
    hide Resolve, ResolveRecord, EncodeRecord, Unmarshal, Marshal, ValidUtf8;
    MarshalIsBytes(p);
    StatesAreValid();
    ResolveEnvelope(Record(COMPLETED_STATE, Marshal(p).value, fingerprint));
    UnmarshalMarshal(p);
    ResolveCompletedRecord(Marshal(p).value, fingerprint, p);
  }

  /** Any state but pending is read as completed. */
  lemma ResolveOtherState(state: string, p: GoPair, fingerprint: string)
    requires state != "pending" && ValidUtf8(state) && Marshal(p).Some? && ValidUtf8(fingerprint)
    ensures IsBytes(Marshal(p).value)
    ensures Resolve(EncodeRecord(Record(state, Marshal(p).value, fingerprint))) == Completed(p, fingerprint)
  {
    hide Resolve, EncodeRecord, Unmarshal, Marshal, ValidUtf8;
    MarshalIsBytes(p);
    ResolveEnvelope(Record(state, Marshal(p).value, fingerprint));
    UnmarshalMarshal(p);
  }

  /** Legacy bytes never carry the magic, and resolve to their pair with no fingerprint. */
  lemma ResolveLegacy(p: GoPair)
    requires Marshal(p).Some?
    ensures !HasMagic(Marshal(p).value)
    ensures Resolve(Marshal(p).value) == Completed(p, "")
  {
    MarshalFirstByte(p);
    UnmarshalMarshal(p);
    assert MAGIC[0] as int == 0x49;
  }
}
