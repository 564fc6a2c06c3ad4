/** CSRF tokens and OIDC flow cookies: signed, base64url-encoded JSON. */
module SignedTokens {
  import opened Prelude
  import opened Text
  import opened Base64Url

  // ---- CSRF tokens -------------------------------------------------------

  const CSRF_TOKEN_EXPIRY_MS: int := 24 * 60 * 60 * 1000
  const CSRF_TOKEN_FUTURE_SKEW_MS: int := 5 * 60 * 1000
  const CSRF_TOKEN_MAX_LENGTH: nat := 2048

  datatype Payload = Payload(ts: nat, nonce: string)

  /** HMAC-SHA256 under the process secret, and JSON with its UTF-8 encoding. */
  datatype CsrfEnv = CsrfEnv(
    mac: string -> seq<Byte>,
    serialise: Payload -> seq<Byte>,
    parse: seq<Byte> -> Option<Payload>)

  ghost predicate CsrfLaws(env: CsrfEnv) {
    && (forall p :: env.parse(env.serialise(p)) == Some(p))
    && (forall data :: |env.mac(data)| == 32)
  }

  /** HMAC does not send these two strings to one value. */
  predicate NoCollision(env: CsrfEnv, x: string, y: string) {
    env.mac(x) == env.mac(y) ==> x == y
  }

  function SignedData(clientId: string, p: Payload): string {
    clientId + ("|" + Decimal(p.ts) + "|" + p.nonce)
  }

  function CreateCsrfToken(env: CsrfEnv, clientId: string, now: nat, random: seq<Byte>): string {
    var p := Payload(now, Encode(random));
    Encode(env.serialise(p)) + ['.'] + Encode(env.mac(SignedData(clientId, p)))
  }

  predicate AcceptPayload(env: CsrfEnv, clientId: string, p: Payload, sig: Option<seq<Byte>>, now: int) {
    if |p.nonce| < 8 then false
    else if now - p.ts > CSRF_TOKEN_EXPIRY_MS then false
    else if p.ts - now > CSRF_TOKEN_FUTURE_SKEW_MS then false
    else sig == Some(env.mac(SignedData(clientId, p)))
  }

  predicate ValidateCsrfToken(env: CsrfEnv, clientId: string, token: string, now: int) {
    if token == "" || |token| > CSRF_TOKEN_MAX_LENGTH then false
    else
      var parts := Split(token, '.');
      if |parts| != 2 then false
      else
        var json := Decode(parts[0]);
        if json.None? || env.parse(json.value).None? then false
        else AcceptPayload(env, clientId, env.parse(json.value).value, Decode(parts[1]), now)
  }

  lemma NoDotInEncoding(b: seq<Byte>)
    ensures '.' !in Encode(b)
  {
    EncodeIs(b);
  }

  lemma TwoParts(a: seq<Byte>, b: seq<Byte>)
    ensures Split(Encode(a) + ['.'] + Encode(b), '.') == [Encode(a), Encode(b)]
  {
    NoDotInEncoding(a);
    NoDotInEncoding(b);
    assert [Encode(a), Encode(b)][1..] == [Encode(b)];
    SplitJoin([Encode(a), Encode(b)], '.');
  }

  /** What is signed determines the payload for one client, and client and payload where ids have no bar. */
  lemma SignedDataIsInjective(c1: string, p1: Payload, c2: string, p2: Payload)
    requires SignedData(c1, p1) == SignedData(c2, p2)
    requires c1 == c2 || ('|' !in c1 && '|' !in c2)
    ensures c1 == c2 && p1 == p2
  {
    var t1, t2 := Decimal(p1.ts) + "|" + p1.nonce, Decimal(p2.ts) + "|" + p2.nonce;
    assert SignedData(c1, p1) == c1 + ['|'] + t1 && SignedData(c2, p2) == c2 + ['|'] + t2;
    if c1 == c2 {
      assert (c1 + ['|'] + t1)[|c1| + 1..] == t1 && (c2 + ['|'] + t2)[|c2| + 1..] == t2;
    } else {
      CutAtFirst(c1, '|', t1, c2, t2);
    }
    NoBar(p1.ts);
    NoBar(p2.ts);
    assert t1 == Decimal(p1.ts) + ['|'] + p1.nonce && t2 == Decimal(p2.ts) + ['|'] + p2.nonce;
    CutAtFirst(Decimal(p1.ts), '|', p1.nonce, Decimal(p2.ts), p2.nonce);
    ValueOfDecimal(p1.ts);
    ValueOfDecimal(p2.ts);
  }

  lemma NoBar(n: nat)
    ensures '|' !in Decimal(n)
  {
    assert !IsDigit('|');
  }

  lemma CutAtFirst(a: string, c: char, x: string, b: string, y: string)
    requires c !in a && c !in b && a + [c] + x == b + [c] + y
    ensures a == b && x == y
  {
    IndexOfFirst(a, c, x);
    IndexOfFirst(b, c, y);
    assert (a + [c] + x)[..|a|] == a && (b + [c] + y)[..|b|] == b;
    assert (a + [c] + x)[|a| + 1..] == x && (b + [c] + y)[|b| + 1..] == y;
  }

  /** With a bar in a client id two clients can share what is signed. */
  lemma BarsCanCoincide(c: string, n: nat, nonce: string)
    ensures SignedData(c + "|" + Decimal(n) + "|x", Payload(n, nonce)) == SignedData(c, Payload(n, "x|" + Decimal(n) + "|" + nonce))
  {
  }

  lemma ValidateDecodes(env: CsrfEnv, clientId: string, json: seq<Byte>, sig: seq<Byte>, now: int)
    requires env.parse(json).Some?
    ensures ValidateCsrfToken(env, clientId, Encode(json) + ['.'] + Encode(sig), now)
       <==> (EncodedLength(|json|) + 1 + EncodedLength(|sig|) <= 2048
             && AcceptPayload(env, clientId, env.parse(json).value, Some(sig), now))
  {
    EncodeIs(json);
    EncodeIs(sig);
    TwoParts(json, sig);
    DecodeEncode(json);
    DecodeEncode(sig);
  }

  predicate InTime(ts: nat, now: int) {
    ts - 300_000 <= now <= ts + 86_400_000
  }

  lemma TokenLengths(n: nat)
    ensures EncodedLength(16) == 22 && EncodedLength(32) == 43
    ensures EncodedLength(n) + 1 + 43 <= 2048 <==> n <= 1503
  {
  }

  /** A token validates, for whichever client presents it, exactly while it is in time (from five minutes before
      to 24 hours after its time stamp), fits the length limit (payload JSON of at most 1503 bytes), and HMAC
      signs its payload for that client as it did for the client it was issued to. */
  lemma TokenValidatesExactly(env: CsrfEnv, clientId: string, issuedAt: nat, random: seq<Byte>, other: string, now: int)
    requires CsrfLaws(env) && |random| == 16
    ensures var p := Payload(issuedAt, Encode(random));
            ValidateCsrfToken(env, other, CreateCsrfToken(env, clientId, issuedAt, random), now) <==>
              && env.mac(SignedData(other, p)) == env.mac(SignedData(clientId, p))
              && InTime(issuedAt, now) && |env.serialise(p)| <= 1503
  {
    var p := Payload(issuedAt, Encode(random));
    var json, sig := env.serialise(p), env.mac(SignedData(clientId, p));
    EncodeIs(random);
    TokenLengths(|json|);
    assert env.parse(json) == Some(p);
    ValidateDecodes(env, other, json, sig, now);
  }

  /** So it validates for its own client exactly while in time and short enough, and for another one only if
      HMAC collides on the two strings that are signed. */
  lemma TokenBelongsToItsClient(env: CsrfEnv, clientId: string, issuedAt: nat, random: seq<Byte>, other: string, now: int)
    requires CsrfLaws(env) && |random| == 16
    requires var p := Payload(issuedAt, Encode(random)); NoCollision(env, SignedData(other, p), SignedData(clientId, p))
    ensures ValidateCsrfToken(env, other, CreateCsrfToken(env, clientId, issuedAt, random), now)
       <==> (other == clientId && InTime(issuedAt, now) && |env.serialise(Payload(issuedAt, Encode(random)))| <= 1503)
  {
    var p := Payload(issuedAt, Encode(random));
    TokenValidatesExactly(env, clientId, issuedAt, random, other, now);
    if SignedData(other, p) == SignedData(clientId, p) {
      SuffixKeepsPrefix(other, clientId, "|" + Decimal(p.ts) + "|" + p.nonce);
    }
  }

  lemma SuffixKeepsPrefix(a: string, b: string, tail: string)
    requires a + tail == b + tail
    ensures a == b
  {
    assert |a| == |b|;
    assert (a + tail)[..|a|] == a && (b + tail)[..|b|] == b;
  }

  /** A signature cannot be repackaged: put beside any payload, it validates for a client only if HMAC collides
      or client and payload are the ones it was made for, where client ids have no bar or are the same. */
  lemma SignatureFitsItsPayloadOnly(env: CsrfEnv, clientId: string, p: Payload, other: string, q: Payload, now: int)
    requires CsrfLaws(env) && (clientId == other || ('|' !in clientId && '|' !in other))
    requires NoCollision(env, SignedData(other, q), SignedData(clientId, p))
    requires ValidateCsrfToken(env, other, Encode(env.serialise(q)) + ['.'] + Encode(env.mac(SignedData(clientId, p))), now)
    ensures other == clientId && q == p && InTime(p.ts, now)
  {
    assert env.parse(env.serialise(q)) == Some(q);
    ValidateDecodes(env, other, env.serialise(q), env.mac(SignedData(clientId, p)), now);
    SignedDataIsInjective(other, q, clientId, p);
  }

  // ---- the laws can be met -----------------------------------------------

  /** Three bytes a character. */
  function Spell(s: string): seq<Byte> {
    if s == "" then []
    else var n := s[0] as int; [n / 65536, n / 256 % 256, n % 256] + Spell(s[1..])
  }

  function Joined(high: int, middle: int, low: int): int {
    65536 * high + 256 * middle + low
  }

  function Unspell(b: seq<Byte>): Option<string>
    decreases |b|
  {
    if b == [] then Some("")
    else if |b| < 3 then None
    else
      var n := Joined(b[0], b[1], b[2]);
      var rest := Unspell(b[3..]);
      if rest.None? || !(n < 0xD800 || 0xE000 <= n < 0x11_0000) then None else Some([n as char] + rest.value)
  }

  lemma PartsJoin(n: nat)
    ensures Joined(n / 65536, n / 256 % 256, n % 256) == n
  {
  }

  lemma UnspellStep(c: char, rest: string, b: seq<Byte>)
    requires Unspell(b) == Some(rest)
    ensures var n := c as int; Unspell([n / 65536, n / 256 % 256, n % 256] + b) == Some([c] + rest)
  {
    var n := c as int;
    var whole: seq<Byte> := [n / 65536, n / 256 % 256, n % 256] + b;
    PartsJoin(n);
    assert whole[3..] == b;
  }

  lemma {:induction false} SpellRoundTrip(s: string)
    ensures Unspell(Spell(s)) == Some(s)
  {
    if s != "" {
      SpellRoundTrip(s[1..]);
      UnspellStep(s[0], s[1..], Spell(s[1..]));
      assert s == [s[0]] + s[1..];
    }
  }

  function ParsePlain(b: seq<Byte>): Option<Payload> {
    var text := Unspell(b);
    if text.None? then None
    else
      var k := IndexOf(text.value, '|');
      if k < |text.value| && AllDigits(text.value[..k]) then Some(Payload(Value(text.value[..k]), text.value[k + 1..]))
      else None
  }

  /** An environment that obeys the laws. */
  function PlainEnv(): CsrfEnv {
    CsrfEnv((data: string) => seq(32, _ => 0), (p: Payload) => Spell(Decimal(p.ts) + "|" + p.nonce), ParsePlain)
  }

  lemma LawsCanBeMet()
    ensures CsrfLaws(PlainEnv())
  {
    forall p: Payload ensures ParsePlain(Spell(Decimal(p.ts) + "|" + p.nonce)) == Some(p) {
      var ts, text := Decimal(p.ts), Decimal(p.ts) + "|" + p.nonce;
      SpellRoundTrip(text);
      NoBar(p.ts);
      IndexOfFirst(ts, '|', p.nonce);
      assert text == ts + ['|'] + p.nonce;
      assert text[..|ts|] == ts && text[|ts| + 1..] == p.nonce;
      ValueOfDecimal(p.ts);
    }
  }

  // ---- return paths ------------------------------------------------------

  /** `sanitizeReturnTo`; None is a value that is not a string. */
  function SanitizeReturnTo(raw: Option<string>): string {
    if raw.None? then "/"
    else
      var value := Trim(raw.value);
      if !("/" <= value) then "/"
      else if "//" <= value then "/"
      else if '\r' in value || '\n' in value then "/"
      else if |value| > 2048 then "/"
      else value
  }

  /** An absolute path on this origin, on one line and of bounded length. */
  predicate IsLocalPath(s: string) {
    Trimmed(s) && "/" <= s && !("//" <= s) && '\r' !in s && '\n' !in s && |s| <= 2048
  }

  /** Every result is a local path, local paths are exactly what is left alone, and cleaning twice
      is cleaning once. */
  lemma SanitizeReturnsLocalPaths(raw: Option<string>)
    ensures IsLocalPath(SanitizeReturnTo(raw))
    ensures raw.Some? ==> (SanitizeReturnTo(raw) == raw.value <==> IsLocalPath(raw.value))
    ensures SanitizeReturnTo(Some(SanitizeReturnTo(raw))) == SanitizeReturnTo(raw)
  {
    var r := SanitizeReturnTo(raw);
    if raw.Some? {
      TrimIsTrimmed(raw.value);
    }
    TrimIsTrimmed(r);
  }

  /** A string that is a local path once trimmed is kept, trimmed; anything else, and anything that is no string,
      becomes the root. */
  lemma SanitizeExactly(raw: Option<string>)
    ensures SanitizeReturnTo(raw)
         == match raw
            case Some(s) => if IsLocalPath(Trim(s)) then Trim(s) else "/"
            case None => "/"
  {
    if raw.Some? {
      TrimIsTrimmed(raw.value);
    }
  }

  // ---- OIDC flow cookies -------------------------------------------------

  datatype FlowPayload = FlowPayload(state: string, nonce: string, codeVerifier: string, returnTo: string, expiresAt: int)

  /** `mac` takes the key first. */
  datatype FlowEnv = FlowEnv(
    mac: (string, string) -> seq<Byte>,
    serialise: FlowPayload -> seq<Byte>,
    parse: seq<Byte> -> Option<FlowPayload>)

  ghost predicate FlowLaws(env: FlowEnv) {
    && (forall p :: env.parse(env.serialise(p)) == Some(p) && env.serialise(p) != [])
    && (forall key, data :: env.mac(key, data) != [])
  }

  function SignFlow(env: FlowEnv, encoded: string, secret: string): string {
    Encode(env.mac(secret, encoded))
  }

  function EncodeFlowPayload(env: FlowEnv, p: FlowPayload, secret: string): string {
    var encoded := Encode(env.serialise(p));
    encoded + ['.'] + SignFlow(env, encoded, secret)
  }

  function DecodeFlowPayload(env: FlowEnv, cookie: Option<string>, secret: string, now: int): Option<FlowPayload> {
    if cookie.None? || cookie.value == "" then None
    else
      var parts := Split(cookie.value, '.');
      if |parts| < 2 || parts[0] == "" || parts[1] == "" then None
      else if SignFlow(env, parts[0], secret) != parts[1] then None
      else
        var json := Decode(parts[0]);
        if json.None? || env.parse(json.value).None? then None
        else
          var p := env.parse(json.value).value;
          if now > p.expiresAt then None
          else Some(p.(returnTo := SanitizeReturnTo(Some(p.returnTo))))
  }

  /** How a cookie of two parts decodes. */
  lemma TwoPartCookie(env: FlowEnv, json: seq<Byte>, sig: seq<Byte>, p: FlowPayload, key: string, now: int)
    requires json != [] && sig != [] && env.parse(json) == Some(p)
    ensures var decoded := DecodeFlowPayload(env, Some(Encode(json) + ['.'] + Encode(sig)), key, now);
            && (decoded.Some? <==> Encode(env.mac(key, Encode(json))) == Encode(sig) && now <= p.expiresAt)
            && (decoded.Some? ==> decoded == Some(p.(returnTo := SanitizeReturnTo(Some(p.returnTo)))))
  {
    TwoParts(json, sig);
    EncodeIs(json);
    EncodeIs(sig);
    DecodeEncode(json);
  }

  lemma EncodingIsInjective(a: seq<Byte>, b: seq<Byte>)
    ensures Encode(a) == Encode(b) <==> a == b
  {
    DecodeEncode(a);
    DecodeEncode(b);
  }

  /** A flow cookie decodes, under a key that signs it alike, until it expires, to its payload with the
      return path cleaned; so to the payload itself exactly when the path was a local one. */
  lemma FlowRoundTrip(env: FlowEnv, p: FlowPayload, secret: string, key: string, now: int)
    requires FlowLaws(env)
    ensures var encoded := Encode(env.serialise(p));
            var decoded := DecodeFlowPayload(env, Some(EncodeFlowPayload(env, p, secret)), key, now);
            && (decoded.Some? <==> now <= p.expiresAt && env.mac(key, encoded) == env.mac(secret, encoded))
            && (decoded.Some? ==> decoded == Some(p.(returnTo := SanitizeReturnTo(Some(p.returnTo)))))
            && (decoded.Some? ==> (decoded == Some(p) <==> IsLocalPath(p.returnTo)))
  {
    var json := env.serialise(p);
    var mine, theirs := env.mac(secret, Encode(json)), env.mac(key, Encode(json));
    assert env.parse(json) == Some(p);
    TwoPartCookie(env, json, mine, p, key, now);
    EncodingIsInjective(theirs, mine);
    SanitizeReturnsLocalPaths(Some(p.returnTo));
  }

  /** Nothing but a signed payload decodes: the cookie's second part is the signature of its first under the key, the
      first decodes to the payload, and that had not expired. */
  lemma DecodedCookiesAreSigned(env: FlowEnv, cookie: Option<string>, key: string, now: int)
    ensures var decoded := DecodeFlowPayload(env, cookie, key, now);
            decoded.Some? ==>
              && cookie.Some?
              && var parts := Split(cookie.value, '.');
                 && |parts| >= 2 && parts[1] == Encode(env.mac(key, parts[0]))
                 && Decode(parts[0]).Some? && env.parse(Decode(parts[0]).value).Some?
                 && var p := env.parse(Decode(parts[0]).value).value;
                    now <= p.expiresAt && decoded == Some(p.(returnTo := SanitizeReturnTo(Some(p.returnTo))))
  {
  }

  /** A token of whatever origin validates exactly when it is two parts of which the first decodes to a payload with a
      nonce of at least eight characters, in time, and the second to the payload's signature for the client. */
  lemma AcceptedTokensAreSigned(env: CsrfEnv, clientId: string, token: string, now: int)
    ensures ValidateCsrfToken(env, clientId, token, now) <==>
              && token != "" && |token| <= 2048 && |Split(token, '.')| == 2
              && var parts := Split(token, '.');
                 && Decode(parts[0]).Some? && env.parse(Decode(parts[0]).value).Some?
                 && var p := env.parse(Decode(parts[0]).value).value;
                    && |p.nonce| >= 8 && InTime(p.ts, now)
                    && Decode(parts[1]) == Some(env.mac(clientId + ("|" + Decimal(p.ts) + "|" + p.nonce)))
  {
  }
}
