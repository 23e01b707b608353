/** Signing and verifying tokens (utils/jwt.js; section 3.1 of RFC 7515, sections 4.1.4 and 4.1.5 of RFC 7519). */
module Jwt {
  import opened Wrappers
  import opened Text
  import opened Base64Url

  /** The claims the code reads, and whatever else the caller put in. An absent number is None. */
  datatype Payload = Payload(userId: string, others: map<string, string>, iat: Option<int>, exp: Option<int>,
                             nbf: Option<int>)

  /** JSON text as bytes, read back as None when it is not a payload object, and the keyed digest. */
  datatype Codec = Codec(
    stringify: Payload -> seq<Byte>, parse: seq<Byte> -> Option<Payload>, header: seq<Byte>,
    hmac: (string, string) -> seq<Byte>)

  datatype SignError = MissingUserId

  /** What JSON promises: a payload that was written is read back. */
  ghost predicate ReadsBack(codec: Codec) {
    forall p :: codec.parse(codec.stringify(p)) == Some(p)
  }

  function Signature(codec: Codec, secret: string, input: string): string {
    Base64UrlEncode(codec.hmac(secret, input))
  }

  function FullPayload(p: Payload, expiresInSeconds: int, nowMs: int): Payload {
    var now := nowMs / 1000;
    p.(iat := Some(now), exp := Some(now + expiresInSeconds), nbf := Some(now))
  }

  function SignJwt(codec: Codec, p: Payload, expiresInSeconds: int, secret: string,
                   nowMs: int): Result<string, SignError> {
    if p.userId == "" then Err(MissingUserId)
    else
      var input := Base64UrlEncode(codec.header) + "."
        + Base64UrlEncode(codec.stringify(FullPayload(p, expiresInSeconds, nowMs)));
      Ok(input + "." + Signature(codec, secret, input))
  }

  /** Zero counts as absent, as it does for the code's truth test. */
  predicate Truthy(claim: Option<int>) {
    claim.Some? && claim.value != 0
  }

  predicate Expired(p: Payload, nowMs: int, skewMs: int) {
    Truthy(p.exp) && nowMs >= p.exp.value * 1000 + skewMs
  }

  predicate TooEarly(p: Payload, nowMs: int) {
    Truthy(p.nbf) && nowMs < p.nbf.value * 1000
  }

  function VerifyJwt(codec: Codec, token: string, secret: string, nowMs: int, skewMs: int): Option<Payload> {
    if token == "" then None
    else
      var parts := Split(token, '.');
      if |parts| != 3 then None
      else if parts[2] != Signature(codec, secret, parts[0] + "." + parts[1]) then None
      else
        var p := codec.parse(Base64UrlDecode(parts[1]));
        if p.None? || Expired(p.value, nowMs, skewMs) || TooEarly(p.value, nowMs) then None else p
  }

  lemma NoDots(b: seq<Byte>)
    ensures '.' !in Base64UrlEncode(b)
  {
    EncodedText(b);
    var s := Base64UrlEncode(b);
    forall i | 0 <= i < |s| ensures s[i] != '.' {
      assert UrlSafe(s[i]);
    }
  }

  lemma ThreeParts(a: string, b: string, c: string)
    requires '.' !in a && '.' !in b && '.' !in c
    ensures Split(a + "." + b + "." + c, '.') == [a, b, c]
  {
    SplitFree(c, '.');
    SplitCons(b, c, '.');
    SplitCons(a, b + "." + c, '.');
    assert a + "." + b + "." + c == a + "." + (b + "." + c);
    assert [a] + ([b] + [c]) == [a, b, c];
  }

  /** The three dot-free parts of a signed token, whose middle one decodes to the stamped payload. */
  lemma SignedParts(codec: Codec, p: Payload, expiresInSeconds: int, secret: string, nowMs: int)
    requires p.userId != ""
    ensures var body := Base64UrlEncode(codec.stringify(FullPayload(p, expiresInSeconds, nowMs)));
            var head := Base64UrlEncode(codec.header);
            var token := SignJwt(codec, p, expiresInSeconds, secret, nowMs);
            && token.Ok?
            && Split(token.value, '.') == [head, body, Signature(codec, secret, head + "." + body)]
            && Base64UrlDecode(body) == codec.stringify(FullPayload(p, expiresInSeconds, nowMs))
  {
    var full := codec.stringify(FullPayload(p, expiresInSeconds, nowMs));
    var head, body := Base64UrlEncode(codec.header), Base64UrlEncode(full);
    NoDots(codec.header);
    NoDots(full);
    NoDots(codec.hmac(secret, head + "." + body));
    ThreeParts(head, body, Signature(codec, secret, head + "." + body));
    RoundTrip(full);
  }

  /** Verifying a signed token gives back the payload with its three stamps, exactly inside its window of validity. */
  lemma VerifyUndoesSign(codec: Codec, p: Payload, expiresInSeconds: int, secret: string, signedMs: int,
                         nowMs: int, skewMs: int)
    requires ReadsBack(codec) && p.userId != ""
    ensures var token := SignJwt(codec, p, expiresInSeconds, secret, signedMs);
            var iat := signedMs / 1000;
            var exp := iat + expiresInSeconds;
            && token.Ok?
            && VerifyJwt(codec, token.value, secret, nowMs, skewMs) ==
                 if (exp == 0 || nowMs < exp * 1000 + skewMs) && (iat == 0 || iat * 1000 <= nowMs)
                 then Some(Payload(p.userId, p.others, Some(iat), Some(exp), Some(iat))) else None
  {
    SignedParts(codec, p, expiresInSeconds, secret, signedMs);
  }

  /**
    A token signed after the first second of the epoch for a positive lifetime is valid at once and stops at
    its expiry.
   */
  lemma ValidUntilExpiry(codec: Codec, p: Payload, expiresInSeconds: int, secret: string, signedMs: int,
                         nowMs: int, skewMs: int)
    requires ReadsBack(codec) && p.userId != "" && expiresInSeconds > 0 && signedMs >= 1000 && nowMs >= signedMs
      && skewMs >= 0
    ensures var token := SignJwt(codec, p, expiresInSeconds, secret, signedMs).value;
            VerifyJwt(codec, token, secret, nowMs, skewMs).Some? <==>
              nowMs < (signedMs / 1000 + expiresInSeconds) * 1000 + skewMs
  {
    VerifyUndoesSign(codec, p, expiresInSeconds, secret, signedMs, nowMs, skewMs);
    assert signedMs / 1000 * 1000 <= signedMs;
  }

  /** A lifetime that puts the expiry at zero seconds gives a token that never expires. */
  lemma ZeroExpiryNeverExpires(codec: Codec, p: Payload, expiresInSeconds: int, secret: string, signedMs: int,
                               nowMs: int, skewMs: int)
    requires ReadsBack(codec) && p.userId != "" && signedMs / 1000 + expiresInSeconds == 0 && nowMs >= signedMs
    ensures VerifyJwt(codec, SignJwt(codec, p, expiresInSeconds, secret, signedMs).value, secret, nowMs, skewMs).Some?
  {
    VerifyUndoesSign(codec, p, expiresInSeconds, secret, signedMs, nowMs, skewMs);
    assert signedMs / 1000 * 1000 <= signedMs;
  }

  lemma TokenIs(token: string)
    requires |Split(token, '.')| == 3
    ensures var parts := Split(token, '.'); token == parts[0] + "." + parts[1] + "." + parts[2]
  {
    var parts := Split(token, '.');
    JoinSplit(token, '.');
    assert parts[1..][1..] == [parts[2]];
    assert Join(parts, '.') == parts[0] + ['.'] + Join(parts[1..], '.');
    assert Join(parts[1..], '.') == parts[1] + ['.'] + parts[2];
  }

  /** Whatever is accepted carries the digest of its own first two parts and a payload inside its window. */
  lemma AcceptedIsSigned(codec: Codec, token: string, secret: string, nowMs: int, skewMs: int)
    requires VerifyJwt(codec, token, secret, nowMs, skewMs).Some?
    ensures exists head, body ::
              && token == head + "." + body + "." + Signature(codec, secret, head + "." + body)
              && codec.parse(Base64UrlDecode(body)) == VerifyJwt(codec, token, secret, nowMs, skewMs)
    ensures var p := VerifyJwt(codec, token, secret, nowMs, skewMs).value;
            && (p.exp.Some? && p.exp.value != 0 ==> nowMs < p.exp.value * 1000 + skewMs)
            && (p.nbf.Some? && p.nbf.value != 0 ==> p.nbf.value * 1000 <= nowMs)
  {
    TokenIs(token);
  }

  /** Every token with a valid signature, a readable payload and a window around now is accepted. */
  lemma GoodTokenAccepted(codec: Codec, head: string, body: string, secret: string, nowMs: int, skewMs: int)
    requires '.' !in head && '.' !in body
    requires codec.parse(Base64UrlDecode(body)).Some?
    requires var p := codec.parse(Base64UrlDecode(body)).value;
             && (p.exp.Some? && p.exp.value != 0 ==> nowMs < p.exp.value * 1000 + skewMs)
             && (p.nbf.Some? && p.nbf.value != 0 ==> p.nbf.value * 1000 <= nowMs)
    ensures var token := head + "." + body + "." + Signature(codec, secret, head + "." + body);
            VerifyJwt(codec, token, secret, nowMs, skewMs) == codec.parse(Base64UrlDecode(body))
  {
    NoDots(codec.hmac(secret, head + "." + body));
    ThreeParts(head, body, Signature(codec, secret, head + "." + body));
  }

  /** No token without a user. */
  lemma NoUserNoToken(codec: Codec, p: Payload, expiresInSeconds: int, secret: string, nowMs: int)
    ensures SignJwt(codec, p, expiresInSeconds, secret, nowMs).Err? <==> p.userId == ""
  {}

  /** Two accepted tokens with one signature are one token, or they exhibit a collision of the digest. */
  lemma SharedSignatureCollides(codec: Codec, a: string, b: string, secret: string, nowMs: int, skewMs: int)
    requires VerifyJwt(codec, a, secret, nowMs, skewMs).Some? && VerifyJwt(codec, b, secret, nowMs, skewMs).Some?
    requires a != b && Split(a, '.')[|Split(a, '.')| - 1] == Split(b, '.')[|Split(b, '.')| - 1]
    ensures exists x, y :: x != y && codec.hmac(secret, x) == codec.hmac(secret, y) && x <= a && y <= b
  {
    var p, q := Split(a, '.'), Split(b, '.');
    TokenIs(a);
    TokenIs(b);
    var x, y := p[0] + "." + p[1], q[0] + "." + q[1];
    EncodeInjective(codec.hmac(secret, x), codec.hmac(secret, y));
    assert x != y && x <= a && y <= b;
  }
}
