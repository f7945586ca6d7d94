/** What the three token managers share: the cached credential, the clock
    arithmetic of the expiry check, the token-endpoint request with its Basic
    credential, and the response the endpoint sends back. */
module TokenCommon {

  import opened Wrappers
  import Base64Url

  /** The clock counts microseconds, the resolution of Python's `datetime`. */
  const MicrosPerSecond: int := 1_000_000

  /** A token counts as expired once at most this many seconds of it remain. */
  const RefreshBeforeSeconds: int := 10

  /** The cached credential: `TokenValues` (or `Value`) `(access_token, token_type)`. */
  datatype TokenValues = TokenValues(accessToken: string, tokenType: string)

  /** The JSON body of a token response when it parses and carries the three
      fields (`expires_in` already passed through `int(...)`). */
  datatype TokenBody = TokenBody(accessToken: string, tokenType: string, expiresIn: int)

  /** A response of the token endpoint: its status code and, when it could be
      read, its body. `body == None` stands for an empty body, a body that is
      not JSON, or one that lacks a field. */
  datatype HttpResponse = HttpResponse(status: int, body: Option<TokenBody>)

  /** Why a refresh failed, each an exception whose propagation leaves the
      cache as it was. `HttpStatusError` is the HTTP error (IncogniaHTTPError,
      or IncogniaException('network error: <status>')); `ResponseParseError`
      the KeyError, TypeError or ValueError of reading the body;
      `AsciiEncodeError` the UnicodeEncodeError of `.encode('ascii')`. */
  datatype TokenError = HttpStatusError(status: int) | ResponseParseError | AsciiEncodeError

  /** The request sent to the token endpoint: its URL, the `Authorization`
      header, and the `auth=(client_id, client_secret)` argument. */
  datatype TokenRequest = TokenRequest(url: string, authorization: string, auth: (string, string))

  /** `dt.datetime.now() + dt.timedelta(seconds=expires_in)`. */
  function ExpirationFrom(now: int, expiresIn: int): (e: int)
    ensures ExpiredAt(e, now) <==> expiresIn <= RefreshBeforeSeconds
  {
    now + expiresIn * MicrosPerSecond
  }

  /** `(expiration - now).total_seconds() <= 10`. The float division by one
      million is exact at this boundary, so the comparison is on integers. */
  predicate ExpiredAt(expiration: int, now: int)
  {
    expiration - now <= RefreshBeforeSeconds * MicrosPerSecond
  }

  /** A token obtained at `fetchedAt` that lasts `expiresIn` seconds is fresh
      exactly until `expiresIn - 10` seconds have passed, and expired from
      then on; exactly ten seconds left already counts as expired. */
  lemma FreshWindow(fetchedAt: int, expiresIn: int, now: int)
    ensures ExpiredAt(ExpirationFrom(fetchedAt, expiresIn), now)
        <==> now - fetchedAt >= (expiresIn - RefreshBeforeSeconds) * MicrosPerSecond
  {
  }

  predicate IsAscii(s: string)
  {
    forall k :: 0 <= k < |s| ==> s[k] as int < 128
  }

  /** `'Basic ' + base64.urlsafe_b64encode(f'{id}:{secret}'.encode('ascii')).decode('utf-8')`;
      None where the ASCII encoding raises. The part after `Basic ` decodes
      back to the bytes of `id:secret`. */
  function BasicAuthorization(clientId: string, clientSecret: string): (r: Option<string>)
    ensures r.Some? <==> IsAscii(clientId) && IsAscii(clientSecret)
    ensures r.Some? ==>
      |r.value| >= 6 && r.value[..6] == "Basic "
      && Base64Url.Decode(r.value[6..]) == Base64Url.AsciiBytes(clientId + ":" + clientSecret)
      && Base64Url.Encode(Base64Url.Decode(r.value[6..]).value) == r.value[6..]
  {
    var credentials := clientId + ":" + clientSecret;
    assert IsAscii(credentials) <==> IsAscii(clientId) && IsAscii(clientSecret) by {
      assert forall k :: 0 <= k < |clientId| ==> credentials[k] == clientId[k];
      assert forall k :: 0 <= k < |clientSecret| ==> credentials[|clientId| + 1 + k] == clientSecret[k];
    }
    match Base64Url.AsciiBytes(credentials)
    case None => None
    case Some(bytes) =>
      var encoded := Base64Url.Encode(bytes);
      Base64Url.DecodeEncode(bytes);
      var header := "Basic " + encoded;
      assert header[6..] == encoded;
      Some(header)
  }

  /** The request a refresh sends to `url`, or None when the credentials are
      not ASCII and the refresh raises before sending anything. */
  function RefreshRequest(url: string, clientId: string, clientSecret: string): (r: Option<TokenRequest>)
    ensures r.Some? <==> IsAscii(clientId) && IsAscii(clientSecret)
    ensures r.Some? ==>
      r.value.url == url && r.value.auth == (clientId, clientSecret)
      && Some(r.value.authorization) == BasicAuthorization(clientId, clientSecret)
  {
    match BasicAuthorization(clientId, clientSecret)
    case None => None
    case Some(header) => Some(TokenRequest(url, header, (clientId, clientSecret)))
  }

  /** `OK_STATUS_CODE` of the two eager managers. */
  const OkStatus: int := 200

  /** `__get_new_token` of the two eager managers: the request that
      `RefreshRequest` describes is sent to `url`, and only a 200 answer whose
      body carries the three fields yields the new values and their expiry;
      any other status raises `IncogniaException('network error: <status>')`. */
  function FetchNewToken(url: string, clientId: string, clientSecret: string, now: int, response: HttpResponse)
    : (r: Result<(TokenValues, int), TokenError>)
    ensures r.Success? <==>
      IsAscii(clientId) && IsAscii(clientSecret) && response.status == OkStatus && response.body.Some?
    ensures r == Failure(AsciiEncodeError) <==> !(IsAscii(clientId) && IsAscii(clientSecret))
    ensures IsAscii(clientId) && IsAscii(clientSecret) && response.status != OkStatus ==>
      r == Failure(HttpStatusError(response.status))
    ensures IsAscii(clientId) && IsAscii(clientSecret) && response.status == OkStatus && response.body.None? ==>
      r == Failure(ResponseParseError)
    ensures r.Success? ==>
      r.value.0 == TokenValues(response.body.value.accessToken, response.body.value.tokenType)
      && r.value.1 - now == response.body.value.expiresIn * MicrosPerSecond
  {
    if RefreshRequest(url, clientId, clientSecret).None? then Failure(AsciiEncodeError)
    else if response.status != OkStatus then Failure(HttpStatusError(response.status))
    else match response.body
      case None => Failure(ResponseParseError)
      case Some(body) =>
        Success((TokenValues(body.accessToken, body.tokenType), ExpirationFrom(now, body.expiresIn)))
  }
}
