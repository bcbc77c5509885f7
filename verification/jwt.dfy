/** Token issuance and checking (src/modules/auth/util.ts).

    A token is a JWS compact serialisation (section 7.1 of RFC 7515) with an
    HS256 signature (section 3.2 of RFC 7518): the base64url header, the
    base64url JSON claims and the base64url HMAC-SHA256 of "header.payload",
    joined by '.'. The HMAC key is itself derived per token as the standard
    base64 of HMAC-SHA256(globalSecret, sub ++ iat).

    HMAC-SHA256, UTF-8 conversion and JSON are not modelled; they are the
    function fields of `Platform`; `DigestLaw`, `RoundTripLaws` and
    `ShapeLaws` collect the facts about them the proofs rely on, and each
    lemma assumes only those it uses. */
module Jwt {
  import opened Wrappers
  import opened Text
  import opened Base64
  import opened AuthTypes

  /** The foreign primitives the token code calls */
  datatype Platform = Platform(
    hmacSha256: (string, string) -> seq<byte>,   // createHmac('sha256', key).update(msg).digest()
    utf8Encode: string -> seq<byte>,             // Buffer.from(text)
    utf8Decode: seq<byte> -> string,             // buffer.toString()
    stringify: JwtPayload -> string,             // JSON.stringify(payload)
    parse: string -> Option<JwtPayload>)         // JSON.parse(text) as JwtPayload; None when it throws

  /** SHA-256 digests are 32 bytes long */
  ghost predicate DigestLaw(p: Platform) {
    forall key, msg :: |p.hmacSha256(key, msg)| == 32
  }

  /** UTF-8 and JSON round-trip */
  ghost predicate RoundTripLaws(p: Platform) {
    && (forall s :: p.utf8Decode(p.utf8Encode(s)) == s)
    && (forall c :: p.parse(p.stringify(c)) == Some(c))
  }

  /** A serialised object starts with '{', UTF-8 keeps that '{' as the single
      byte 123, and no JSON text starts with 'e' */
  ghost predicate ShapeLaws(p: Platform) {
    && (forall c :: |p.stringify(c)| > 0 && p.stringify(c)[0] == '{')
    && (forall s :: |s| > 0 && s[0] == '{' ==> |p.utf8Encode(s)| > 0 && p.utf8Encode(s)[0] == 123)
    && (forall s :: |s| > 0 && s[0] == 'e' ==> p.parse(s) == None)
  }

  /** The configured global secret, issuer and audience */
  datatype AuthConfig = AuthConfig(secret: string, issuer: string, audience: string)

  /** Seven days, in seconds */
  const TokenLifetime: int := 7 * 86400

  /** JSON.stringify({ alg: 'HS256', typ: 'JWT' }) */
  const HeaderJson: string := "{\"alg\":\"HS256\",\"typ\":\"JWT\"}"

  /** generateJwtSecret: the per-token HMAC key, a padded standard-base64
      text (44 characters for a 32-byte digest) */
  function SigningKey(p: Platform, secret: string, c: JwtPayload): (k: string)
    ensures forall i :: 0 <= i < |k| ==> IsStandardChar(k[i])
    ensures |k| == 4 * ((|p.hmacSha256(secret, c.sub + IntToString(c.iat))| + 2) / 3)
    ensures DigestLaw(p) ==> |k| == 44
  {
    var digest := p.hmacSha256(secret, c.sub + IntToString(c.iat));
    EncodeStandardAlphabet(digest);
    EncodeLength(Standard, true, digest);
    EncodeStandard(digest)
  }

  /** getJwtPayload: the claims issued at `now` for an authenticated user */
  function IssueClaims(auth: AuthData, cfg: AuthConfig, now: int): (c: JwtPayload)
    requires auth.Authenticated?
    ensures c.sub == auth.userId
    ensures c.roles == Roles(auth.isFounder, auth.isAdmin, auth.isInvestor, auth.isCuriousPerson)
  {
    JwtPayload(
      auth.userId,
      now,
      now + TokenLifetime,
      cfg.issuer,
      cfg.audience,
      Roles(auth.isFounder, auth.isAdmin, auth.isInvestor, auth.isCuriousPerson))
  }

  function EncodedHeader(p: Platform): string {
    EncodeUrl(p.utf8Encode(HeaderJson))
  }

  function EncodedPayload(p: Platform, c: JwtPayload): string {
    EncodeUrl(p.utf8Encode(p.stringify(c)))
  }

  /** The third segment of the token generated for `c` */
  function IssuedSignature(p: Platform, secret: string, c: JwtPayload): string {
    EncodeUrl(p.hmacSha256(SigningKey(p, secret, c), EncodedHeader(p) + "." + EncodedPayload(p, c)))
  }

  /** generateJwtToken */
  function GenerateToken(p: Platform, secret: string, c: JwtPayload): (t: string)
    ensures Split(t, '.') == [EncodedHeader(p), EncodedPayload(p, c), IssuedSignature(p, secret, c)]
  {
    var h, pl, sig := EncodedHeader(p), EncodedPayload(p, c), IssuedSignature(p, secret, c);
    EncodeUrlAlphabet(p.utf8Encode(HeaderJson));
    EncodeUrlAlphabet(p.utf8Encode(p.stringify(c)));
    EncodeUrlAlphabet(p.hmacSha256(SigningKey(p, secret, c), h + "." + pl));
    TokenSplits(h, pl, sig);
    h + "." + pl + "." + sig
  }

  lemma TokenSplits(h: string, pl: string, sig: string)
    requires '.' !in h && '.' !in pl && '.' !in sig
    ensures Split(h + "." + pl + "." + sig, '.') == [h, pl, sig]
  {
    assert h + "." + pl + "." + sig == h + ['.'] + (pl + ['.'] + sig);
    SplitAtSeparator(h, pl + ['.'] + sig, '.');
    SplitAtSeparator(pl, sig, '.');
    SplitNoSeparator(sig, '.');
  }

  /** validateJwtPayload: the time window (both ends included), issuer and
      audience */
  function ValidatePayload(c: JwtPayload, cfg: AuthConfig, now: int): (ok: bool)
    ensures ok ==> c.iat <= c.exp
    ensures ok <==> c.iat <= now <= c.exp && c.iss == cfg.issuer && c.aud == cfg.audience
  {
    if c.iat > now || c.exp < now then false
    else if c.iss != cfg.issuer then false
    else c.aud == cfg.audience
  }

  /** How the signature check encodes the recomputed digest */
  datatype DigestEncoding = StandardBase64 | UrlBase64

  /** The two choices that decide whether the signature check can succeed:
      the digest encoding, and whether the payload segment is base64url-decoded
      before JSON.parse. */
  datatype SignatureCheck = SignatureCheck(digest: DigestEncoding, decodesPayload: bool)

  /** The check as the source writes it: digest('base64') over a JSON.parse of
      the still-encoded segment */
  const AsWritten := SignatureCheck(StandardBase64, false)

  /** The evidently intended check: the issuance encoding, and the decoded segment */
  const Corrected := SignatureCheck(UrlBase64, true)

  function EncodeDigest(e: DigestEncoding, d: seq<byte>): string {
    match e
    case StandardBase64 => EncodeStandard(d)
    case UrlBase64 => EncodeUrl(d)
  }

  /** The text the signature check hands to JSON.parse */
  function SignatureClaimsText(check: SignatureCheck, p: Platform, segment: string): Option<string> {
    if check.decodesPayload then
      match DecodeUrl(segment)
      case None => None
      case Some(bytes) => Some(p.utf8Decode(bytes))
    else Some(segment)
  }

  /** validateJwtSignature: Some(verdict), or None where the code throws.
      The token is split on '.'; segments past the third are ignored, a
      missing payload makes JSON.parse throw, and a missing signature compares
      unequal. The key is re-derived from the token's own claims. */
  function ValidateSignature(check: SignatureCheck, p: Platform, secret: string, token: string): (r: Option<bool>)
    ensures r == Some(true) ==>
      var parts := Split(token, '.');
      && |parts| >= 3
      && SignatureClaimsText(check, p, parts[1]).Some?
      && p.parse(SignatureClaimsText(check, p, parts[1]).value).Some?
      && parts[2] == EncodeDigest(check.digest,
           p.hmacSha256(SigningKey(p, secret, p.parse(SignatureClaimsText(check, p, parts[1]).value).value),
                        parts[0] + "." + parts[1]))
  {
    var parts := Split(token, '.');
    if |parts| < 2 then None
    else
      match SignatureClaimsText(check, p, parts[1])
      case None => None
      case Some(text) =>
        match p.parse(text)
        case None => None
        case Some(c) =>
          var expected := EncodeDigest(check.digest, p.hmacSha256(SigningKey(p, secret, c), parts[0] + "." + parts[1]));
          Some(|parts| >= 3 && parts[2] == expected)
  }

  // ---------------------------------------------------------------------
  // Lemmas

  /** Issued claims are accepted exactly from issuance to expiry, both ends
      included, under the configuration that issued them */
  lemma IssuedClaimsWindow(auth: AuthData, cfg: AuthConfig, now: int, t: int)
    requires auth.Authenticated?
    ensures ValidatePayload(IssueClaims(auth, cfg, now), cfg, t) <==> now <= t <= now + 7 * 86400
  {
  }

  /** Claims are rejected outside [iat, exp] and under a foreign issuer or
      audience, whatever else they hold */
  lemma ValidatePayloadCharacterised(c: JwtPayload, cfg: AuthConfig, now: int)
    ensures ValidatePayload(c, cfg, now) <==>
      c.iat <= now && now <= c.exp && c.iss == cfg.issuer && c.aud == cfg.audience
  {
  }

  /** The key depends only on the secret and the text sub ++ iat: claims that
      differ in roles, expiry, issuer or audience share a key */
  lemma SigningKeyDependsOnSubjectAndIssuedAt(p: Platform, secret: string, c1: JwtPayload, c2: JwtPayload)
    requires c1.sub + IntToString(c1.iat) == c2.sub + IntToString(c2.iat)
    ensures SigningKey(p, secret, c1) == SigningKey(p, secret, c2)
  {
  }

  /** Because sub and iat are concatenated without a separator, two different
      (sub, iat) pairs can share a key */
  lemma SigningKeyConcatenationCollision(p: Platform, secret: string, c: JwtPayload)
    ensures SigningKey(p, secret, c.(sub := "user1", iat := 23)) ==
            SigningKey(p, secret, c.(sub := "user12", iat := 3))
  {
    assert IntToString(23) == "23" by {
      assert NatToString(2) == "2";
    }
    assert IntToString(3) == "3";
    assert "user1" + "23" == "user12" + "3";
  }

  /** Every token starts with the same header segment */
  lemma HeaderIsConstant(p: Platform, secret: string, c1: JwtPayload, c2: JwtPayload)
    ensures Split(GenerateToken(p, secret, c1), '.')[0] == Split(GenerateToken(p, secret, c2), '.')[0]
    ensures Split(GenerateToken(p, secret, c1), '.')[0] == EncodeUrl(p.utf8Encode(HeaderJson))
  {
  }

  lemma FirstCharOfEncodeUrl(d: seq<byte>)
    requires |d| > 0
    ensures |EncodeUrl(d)| > 0 && EncodeUrl(d)[0] == CharOf(UrlSafe, d[0] / 4)
  {
  }

  /** The payload segment of an issued token starts with 'e', the encoding of '{' */
  lemma PayloadSegmentStartsWithE(p: Platform, c: JwtPayload)
    requires ShapeLaws(p)
    ensures |EncodedPayload(p, c)| > 0 && EncodedPayload(p, c)[0] == 'e'
  {
    var bytes := p.utf8Encode(p.stringify(c));
    assert |bytes| > 0 && bytes[0] == 123;
    FirstCharOfEncodeUrl(bytes);
  }

  /** The signature check on a token whose segments and claims are known */
  lemma ValidateSignatureOfParts(check: SignatureCheck, p: Platform, secret: string, token: string,
                                 parts: seq<string>, c: JwtPayload)
    requires Split(token, '.') == parts && |parts| >= 2
    requires SignatureClaimsText(check, p, parts[1]).Some?
    requires p.parse(SignatureClaimsText(check, p, parts[1]).value) == Some(c)
    ensures ValidateSignature(check, p, secret, token) ==
      Some(|parts| >= 3 && parts[2] == EncodeDigest(check.digest, p.hmacSha256(SigningKey(p, secret, c), parts[0] + "." + parts[1])))
  {
  }

  /** Decoding the payload segment of an issued token gives back the claims */
  lemma DecodedPayloadText(p: Platform, c: JwtPayload, e: DigestEncoding)
    requires RoundTripLaws(p)
    ensures SignatureClaimsText(SignatureCheck(e, true), p, EncodedPayload(p, c)) == Some(p.stringify(c))
    ensures p.parse(p.stringify(c)) == Some(c)
  {
    var bytes := p.utf8Encode(p.stringify(c));
    DecodeEncodeUrl(bytes);
  }

  /** The corrected check accepts every token generated under the same secret */
  lemma CorrectedAcceptsIssued(p: Platform, secret: string, c: JwtPayload)
    requires RoundTripLaws(p)
    ensures ValidateSignature(Corrected, p, secret, GenerateToken(p, secret, c)) == Some(true)
  {
    var parts := [EncodedHeader(p), EncodedPayload(p, c), IssuedSignature(p, secret, c)];
    DecodedPayloadText(p, c, UrlBase64);
    ValidateSignatureOfParts(Corrected, p, secret, GenerateToken(p, secret, c), parts, c);
  }

  /** Finding, first half: with the payload decoded, the standard-base64 digest
      still never equals the base64url signature, because a 32-byte digest is
      43 characters unpadded and 44 padded. */
  lemma StandardDigestRejectsIssued(p: Platform, secret: string, c: JwtPayload)
    requires RoundTripLaws(p) && DigestLaw(p)
    ensures ValidateSignature(SignatureCheck(StandardBase64, true), p, secret, GenerateToken(p, secret, c)) == Some(false)
  {
    var parts := [EncodedHeader(p), EncodedPayload(p, c), IssuedSignature(p, secret, c)];
    DecodedPayloadText(p, c, StandardBase64);
    ValidateSignatureOfParts(SignatureCheck(StandardBase64, true), p, secret, GenerateToken(p, secret, c), parts, c);
    var digest := p.hmacSha256(SigningKey(p, secret, c), EncodedHeader(p) + "." + EncodedPayload(p, c));
    assert |digest| == 32;
    EncodingsDiffer(digest);
  }

  /** Finding, second half: JSON.parse of the still-encoded payload segment
      throws for every issued token, whatever the digest encoding */
  lemma EncodedPayloadParseThrows(p: Platform, secret: string, c: JwtPayload, e: DigestEncoding)
    requires ShapeLaws(p)
    ensures ValidateSignature(SignatureCheck(e, false), p, secret, GenerateToken(p, secret, c)) == None
  {
    PayloadSegmentStartsWithE(p, c);
  }

  /** The check as written accepts no issued token */
  lemma AsWrittenRejectsIssued(p: Platform, secret: string, c: JwtPayload)
    requires ShapeLaws(p)
    ensures ValidateSignature(AsWritten, p, secret, GenerateToken(p, secret, c)) != Some(true)
  {
    EncodedPayloadParseThrows(p, secret, c, StandardBase64);
  }

  lemma SplitWithExtra(h: string, pl: string, sig: string, extra: string)
    requires '.' !in h && '.' !in pl && '.' !in sig
    ensures Split(h + "." + pl + "." + sig + "." + extra, '.') == [h, pl, sig] + Split(extra, '.')
  {
    assert h + "." + pl + "." + sig + "." + extra == h + ['.'] + (pl + ['.'] + (sig + ['.'] + extra));
    SplitAtSeparator(h, pl + ['.'] + (sig + ['.'] + extra), '.');
    SplitAtSeparator(pl, sig + ['.'] + extra, '.');
    SplitAtSeparator(sig, extra, '.');
  }

  /** Segments after the third are ignored: a valid token with anything
      appended after a further '.' still passes the corrected check */
  lemma ExtraSegmentsIgnored(p: Platform, secret: string, c: JwtPayload, extra: string)
    requires RoundTripLaws(p)
    ensures ValidateSignature(Corrected, p, secret, GenerateToken(p, secret, c) + "." + extra) == Some(true)
  {
    var t := GenerateToken(p, secret, c) + "." + extra;
    var parts := [EncodedHeader(p), EncodedPayload(p, c), IssuedSignature(p, secret, c)] + Split(extra, '.');
    ExtendedTokenSplits(p, secret, c, extra);
    DecodedPayloadText(p, c, UrlBase64);
    ValidateSignatureOfParts(Corrected, p, secret, t, parts, c);
  }

  /** An issued token followed by '.' and more text splits into the three
      segments and the pieces of the rest */
  lemma ExtendedTokenSplits(p: Platform, secret: string, c: JwtPayload, extra: string)
    ensures Split(GenerateToken(p, secret, c) + "." + extra, '.') ==
      [EncodedHeader(p), EncodedPayload(p, c), IssuedSignature(p, secret, c)] + Split(extra, '.')
  {
    var h, pl, sig := EncodedHeader(p), EncodedPayload(p, c), IssuedSignature(p, secret, c);
    EncodeUrlAlphabet(p.utf8Encode(HeaderJson));
    EncodeUrlAlphabet(p.utf8Encode(p.stringify(c)));
    EncodeUrlAlphabet(p.hmacSha256(SigningKey(p, secret, c), h + "." + pl));
    assert GenerateToken(p, secret, c) + "." + extra == h + "." + pl + "." + sig + "." + extra;
    SplitWithExtra(h, pl, sig, extra);
  }
}
