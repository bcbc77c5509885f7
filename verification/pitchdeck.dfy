/** Pitch-deck access (src/modules/startups/startup.pitchdeck.service.ts):
    gated on the startup existing, being approved and having a pitch deck;
    the granted URL is the stored URL with an access token and the user id
    appended as query parameters.

    The clock is `nowMs` (milliseconds since the epoch); UTF-8 encoding of
    the token text is the parameter `utf8`. */
module PitchDeck {
  import opened Wrappers
  import opened Text
  import opened Base64
  import opened StartupTypes
  import opened Shared
  import opened Repository

  datatype PitchDeckData = PitchDeckData(url: string, expiresAtMs: int)

  const DeckNotAvailable := "Startup pitch deck not available"
  const NoDeck := "Pitch deck not available for this startup"
  const AccessGranted := "Pitch deck access granted"

  /** Twenty-four hours, in milliseconds */
  const AccessWindowMs := 24 * 60 * 60 * 1000

  /** The access token: standard base64 of "userId:startupId:timestamp" */
  function AccessToken(utf8: string -> seq<byte>, userId: string, startupId: string, nowMs: int): (token: string)
    ensures forall k :: 0 <= k < |token| ==> IsStandardChar(token[k])
  {
    var token := EncodeStandard(utf8(userId + ":" + startupId + ":" + IntToString(nowMs)));
    EncodeStandardAlphabet(utf8(userId + ":" + startupId + ":" + IntToString(nowMs)));
    token
  }

  /** '&' when the URL already has a query ('?' anywhere in it), else '?' */
  function Separator(originalUrl: string): (c: char)
    ensures c == '&' <==> '?' in originalUrl
    ensures c == '?' <==> '?' !in originalUrl
  {
    if '?' in originalUrl then '&' else '?'
  }

  /** generateSecurePitchDeckUrl */
  function SecureUrl(utf8: string -> seq<byte>, originalUrl: string, userId: string, startupId: string, nowMs: int): (url: string)
    ensures StartsWith(url, originalUrl) && |url| > |originalUrl|
    ensures url[|originalUrl|] == Separator(originalUrl)
    ensures url[|originalUrl| + 1..] ==
      "access_token=" + AccessToken(utf8, userId, startupId, nowMs) + "&user=" + userId
  {
    var query := "access_token=" + AccessToken(utf8, userId, startupId, nowMs) + "&user=" + userId;
    var url := originalUrl + ([Separator(originalUrl)] + query);
    assert url[..|originalUrl|] == originalUrl;
    assert url[|originalUrl|..] == [Separator(originalUrl)] + query;
    assert url[|originalUrl| + 1..] == ([Separator(originalUrl)] + query)[1..];
    url
  }

  /** getPitchDeckAccess for the authenticated user `userId` */
  function GetPitchDeckAccess(t: Table, utf8: string -> seq<byte>, userId: string, startupId: string, nowMs: int): (r: JsonResponse<PitchDeckData>)
    ensures GetAdminStartup(t, startupId).None? ==> r == Err(NotFound)
    ensures GetAdminStartup(t, startupId).Some? && GetAdminStartup(t, startupId).value.startup.status != ApprovedText ==>
      r == Err(DeckNotAvailable)
    ensures r.successful <==>
      GetAdminStartup(t, startupId).Some? && GetAdminStartup(t, startupId).value.startup.status == ApprovedText
      && GetAdminStartup(t, startupId).value.pitchDeck != ""
    ensures (GetAdminStartup(t, startupId).Some? && GetAdminStartup(t, startupId).value.startup.status == ApprovedText
             && GetAdminStartup(t, startupId).value.pitchDeck == "") ==> r == Err(NoDeck)
    ensures r.successful ==>
      r == Ok(AccessGranted, PitchDeckData(
        SecureUrl(utf8, t[startupId].fields.pitchDeck, userId, startupId, nowMs), nowMs + AccessWindowMs))
  {
    match GetAdminStartup(t, startupId)
    case None => Err(NotFound)
    case Some(startup) =>
      if startup.startup.status != ApprovedText then Err(DeckNotAvailable)
      else if startup.pitchDeck == "" then Err(NoDeck)
      else Ok(AccessGranted, PitchDeckData(SecureUrl(utf8, startup.pitchDeck, userId, startupId, nowMs), nowMs + AccessWindowMs))
  }

  /** canUserAccessPitchDecks: every user may, no check is made */
  function CanUserAccessPitchDecks(userId: string): (allowed: bool)
    ensures allowed
  {
    true
  }

  /** revokePitchDeckAccess: nothing is revoked and true is returned */
  function RevokePitchDeckAccess(startupId: string, userId: string): (revoked: bool)
    ensures revoked
  {
    true
  }

  // ---------------------------------------------------------------------
  // Lemmas

  /** The token holds no '&', so the access_token parameter is the whole
      token: splitting the query on '&' gives the token parameter first and
      the user parameter after it */
  lemma AccessTokenParameterIntact(utf8: string -> seq<byte>, originalUrl: string, userId: string, startupId: string, nowMs: int)
    ensures var url := SecureUrl(utf8, originalUrl, userId, startupId, nowMs);
      Split(url[|originalUrl| + 1..], '&') ==
        ["access_token=" + AccessToken(utf8, userId, startupId, nowMs)] + Split("user=" + userId, '&')
  {
    var token := AccessToken(utf8, userId, startupId, nowMs);
    var a := "access_token=" + token;
    TokenParameterHasNoAmpersand(token);
    assert "access_token=" + token + "&user=" + userId == a + ['&'] + ("user=" + userId);
    SplitAtSeparator(a, "user=" + userId, '&');
  }

  /** A standard-alphabet token holds no '&', nor does its parameter */
  lemma TokenParameterHasNoAmpersand(token: string)
    requires forall k :: 0 <= k < |token| ==> IsStandardChar(token[k])
    ensures '&' !in "access_token=" + token
  {
    var a := "access_token=" + token;
    forall k | 0 <= k < |a| ensures a[k] != '&' {
      if k >= 13 {
        assert a[k] == token[k - 13];
      }
    }
  }

  /** The URL begins with the stored URL, and the separator is chosen by the
      presence of '?' */
  lemma SeparatorExamples(utf8: string -> seq<byte>, userId: string, startupId: string, nowMs: int)
    ensures SecureUrl(utf8, "https://x.io/deck.pdf", userId, startupId, nowMs)[21] == '?'
    ensures SecureUrl(utf8, "https://x.io/d?v=1", userId, startupId, nowMs)[18] == '&'
  {
    assert "https://x.io/d?v=1"[14] == '?';
    assert forall k :: 0 <= k < 21 ==> "https://x.io/deck.pdf"[k] != '?';
  }

  /** Granted access expires exactly one day (86,400,000 ms) after the request */
  lemma ExpiresOneDayLater(t: Table, utf8: string -> seq<byte>, userId: string, startupId: string, nowMs: int)
    requires GetPitchDeckAccess(t, utf8, userId, startupId, nowMs).successful
    ensures GetPitchDeckAccess(t, utf8, userId, startupId, nowMs).data.value.expiresAtMs - nowMs == 86400000
  {
  }

  /** Access follows the approval gate and the presence of a deck only; the
      user asking plays no part in the decision */
  lemma AccessIndependentOfUser(t: Table, utf8: string -> seq<byte>, u1: string, u2: string, startupId: string, nowMs: int)
    ensures GetPitchDeckAccess(t, utf8, u1, startupId, nowMs).successful ==
      GetPitchDeckAccess(t, utf8, u2, startupId, nowMs).successful
    ensures !GetPitchDeckAccess(t, utf8, u1, startupId, nowMs).successful ==>
      GetPitchDeckAccess(t, utf8, u1, startupId, nowMs) == GetPitchDeckAccess(t, utf8, u2, startupId, nowMs)
  {
  }
}
