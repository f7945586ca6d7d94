/** The lazy token cache of incognia/token_manager.py: nothing is fetched at
    construction; `get` refreshes under a mutex when no expiration is cached
    or the cached token is expired. */
module IncogniaTokenManager {

  import opened Wrappers
  import opened TokenCommon

  /** `Endpoints.TOKEN` of incognia/endpoints.py. */
  const TokenUrl: string := "https://api.incognia.com/api/v2/token"

  /** `BaseRequest.post` raises IncogniaHTTPError exactly when
      `raise_for_status` does: on a 4xx or 5xx status. */
  predicate RaisesForStatus(status: int)
  {
    400 <= status < 600
  }

  /** The exception a refresh raises, or None when it succeeds: the ASCII
      encoding comes first, then the HTTP status, then reading the body. */
  function RefreshFailure(clientId: string, clientSecret: string, response: HttpResponse): (e: Option<TokenError>)
    ensures e.None? <==>
      IsAscii(clientId) && IsAscii(clientSecret) && !RaisesForStatus(response.status) && response.body.Some?
    ensures e == Some(AsciiEncodeError) <==> !(IsAscii(clientId) && IsAscii(clientSecret))
    ensures e.Some? && e.value.HttpStatusError? ==> e.value.status == response.status && RaisesForStatus(response.status)
    ensures IsAscii(clientId) && IsAscii(clientSecret) && RaisesForStatus(response.status) ==>
      e == Some(HttpStatusError(response.status))
    ensures IsAscii(clientId) && IsAscii(clientSecret) && !RaisesForStatus(response.status) && response.body.None? ==>
      e == Some(ResponseParseError)
  {
    if RefreshRequest(TokenUrl, clientId, clientSecret).None? then Some(AsciiEncodeError)
    else if RaisesForStatus(response.status) then Some(HttpStatusError(response.status))
    else if response.body.None? then Some(ResponseParseError)
    else None
  }

  /** What `get` hands back: the token values, a raised exception, or nothing
      at all because acquiring the mutex blocks forever. */
  datatype GetOutcome = Returned(values: TokenValues) | Raised(error: TokenError) | Blocked

  class TokenManager {
    const clientId: string
    const clientSecret: string
    var tokenValues: Option<TokenValues>
    var expirationTime: Option<int>
    /** Whether the (non-reentrant) mutex is held. */
    var held: bool

    /** Values and expiration are only ever assigned together. */
    ghost predicate Valid()
      reads this
    {
      tokenValues.None? <==> expirationTime.None?
    }

    /** `TokenManager(client_id, client_secret)`: no token, no request. */
    constructor (clientId: string, clientSecret: string)
      ensures this.clientId == clientId && this.clientSecret == clientSecret
      ensures tokenValues == None && expirationTime == None && !held
      ensures Valid()
    {
      this.clientId := clientId;
      this.clientSecret := clientSecret;
      tokenValues := None;
      expirationTime := None;
      held := false;
    }

    /** `__is_expired`. */
    predicate IsExpired(now: int)
      reads this
      requires expirationTime.Some?
    {
      ExpiredAt(expirationTime.value, now)
    }

    /** The test in `get`: `not self.__expiration_time or self.__is_expired()`. */
    predicate NeedsRefresh(now: int)
      reads this
    {
      expirationTime.None? || IsExpired(now)
    }

    /** `__refresh_token`: builds the Basic credential, posts it (the answer
        being `response`), and on success stores values and expiration in one
        assignment; on any failure nothing is stored. */
    method RefreshToken(now: int, response: HttpResponse) returns (error: Option<TokenError>, request: Option<TokenRequest>)
      modifies this`tokenValues, this`expirationTime
      ensures request == RefreshRequest(TokenUrl, clientId, clientSecret)
      ensures error == RefreshFailure(clientId, clientSecret, response)
      ensures error.None? ==>
        tokenValues == Some(TokenValues(response.body.value.accessToken, response.body.value.tokenType))
        && expirationTime == Some(ExpirationFrom(now, response.body.value.expiresIn))
      ensures error.Some? ==> tokenValues == old(tokenValues) && expirationTime == old(expirationTime)
    {
      request := RefreshRequest(TokenUrl, clientId, clientSecret);
      if request.None? {
        error := Some(AsciiEncodeError);
        return;
      }
      if RaisesForStatus(response.status) {
        error := Some(HttpStatusError(response.status));
        return;
      }
      if response.body.None? {
        error := Some(ResponseParseError);
        return;
      }
      var body := response.body.value;
      tokenValues, expirationTime := Some(TokenValues(body.accessToken, body.tokenType)), Some(ExpirationFrom(now, body.expiresIn));
      error := None;
    }

    /** `get` as written: an exception from the refresh skips
        `self.__mutex.release()`, so the mutex stays held. */
    method Get(now: int, response: HttpResponse) returns (r: GetOutcome, request: Option<TokenRequest>)
      requires Valid()
      modifies this`tokenValues, this`expirationTime, this`held
      ensures Valid()
      ensures old(held) ==>
        r == Blocked && request == None
        && tokenValues == old(tokenValues) && expirationTime == old(expirationTime) && held
      ensures !old(held) && !old(NeedsRefresh(now)) ==>
        r == Returned(old(tokenValues).value) && request == None
        && tokenValues == old(tokenValues) && expirationTime == old(expirationTime)
        && !IsExpired(now) && !held
      ensures !old(held) && old(NeedsRefresh(now)) ==>
        request == RefreshRequest(TokenUrl, clientId, clientSecret)
      ensures !old(held) && old(NeedsRefresh(now)) && RefreshFailure(clientId, clientSecret, response).None? ==>
        var fetched := TokenValues(response.body.value.accessToken, response.body.value.tokenType);
        r == Returned(fetched) && tokenValues == Some(fetched)
        && expirationTime == Some(ExpirationFrom(now, response.body.value.expiresIn)) && !held
      ensures !old(held) && old(NeedsRefresh(now)) && RefreshFailure(clientId, clientSecret, response).Some? ==>
        r == Raised(RefreshFailure(clientId, clientSecret, response).value)
        && tokenValues == old(tokenValues) && expirationTime == old(expirationTime) && held
    {
      if held {
        return Blocked, None;
      }
      held := true;
      request := None;
      if NeedsRefresh(now) {
        var error;
        error, request := RefreshToken(now, response);
        if error.Some? {
          return Raised(error.value), request;
        }
      }
      r := Returned(tokenValues.value);
      held := false;
    }

    /** `get` with the mutex released on every path (`with self.__mutex:`),
        so that a failed refresh is retried by the next call. */
    method GetReleasing(now: int, response: HttpResponse) returns (r: GetOutcome, request: Option<TokenRequest>)
      requires Valid()
      modifies this`tokenValues, this`expirationTime, this`held
      ensures Valid()
      ensures old(held) ==>
        r == Blocked && request == None
        && tokenValues == old(tokenValues) && expirationTime == old(expirationTime) && held
      ensures !old(held) && !old(NeedsRefresh(now)) ==>
        r == Returned(old(tokenValues).value) && request == None
        && tokenValues == old(tokenValues) && expirationTime == old(expirationTime)
        && !IsExpired(now) && !held
      ensures !old(held) && old(NeedsRefresh(now)) ==>
        request == RefreshRequest(TokenUrl, clientId, clientSecret)
      ensures !old(held) && old(NeedsRefresh(now)) && RefreshFailure(clientId, clientSecret, response).None? ==>
        var fetched := TokenValues(response.body.value.accessToken, response.body.value.tokenType);
        r == Returned(fetched) && tokenValues == Some(fetched)
        && expirationTime == Some(ExpirationFrom(now, response.body.value.expiresIn)) && !held
      ensures !old(held) && old(NeedsRefresh(now)) && RefreshFailure(clientId, clientSecret, response).Some? ==>
        r == Raised(RefreshFailure(clientId, clientSecret, response).value)
        && tokenValues == old(tokenValues) && expirationTime == old(expirationTime) && !held
    {
      if held {
        return Blocked, None;
      }
      held := true;
      request := None;
      if NeedsRefresh(now) {
        var error;
        error, request := RefreshToken(now, response);
        if error.Some? {
          held := false;
          return Raised(error.value), request;
        }
      }
      r := Returned(tokenValues.value);
      held := false;
    }
  }

  /** The first `get` of a new manager always fetches, and returns what the
      endpoint sent. */
  method FirstGetFetches(clientId: string, clientSecret: string, now: int, body: TokenBody)
    returns (r: GetOutcome, request: Option<TokenRequest>)
    requires IsAscii(clientId) && IsAscii(clientSecret)
    ensures r == Returned(TokenValues(body.accessToken, body.tokenType))
    ensures request.Some? && request.value.url == TokenUrl && request.value.auth == (clientId, clientSecret)
    ensures Some(request.value.authorization) == BasicAuthorization(clientId, clientSecret)
  {
    var m := new TokenManager(clientId, clientSecret);
    r, request := m.Get(now, HttpResponse(200, Some(body)));
  }

  /** Within `expires_in - 10` seconds of a refresh, a second `get` makes no
      request and returns the same values. */
  method FreshTokenIsReused(clientId: string, clientSecret: string, now: int, later: int, body: TokenBody, next: HttpResponse)
    returns (first: GetOutcome, second: GetOutcome, secondRequest: Option<TokenRequest>)
    requires IsAscii(clientId) && IsAscii(clientSecret)
    requires now <= later < now + (body.expiresIn - RefreshBeforeSeconds) * MicrosPerSecond
    ensures first == second == Returned(TokenValues(body.accessToken, body.tokenType))
    ensures secondRequest == None
  {
    var m := new TokenManager(clientId, clientSecret);
    var firstRequest;
    first, firstRequest := m.Get(now, HttpResponse(200, Some(body)));
    FreshWindow(now, body.expiresIn, later);
    second, secondRequest := m.Get(later, next);
  }

  /** A token that came with `expires_in = 5` is already expired, so the next
      `get`, even at the same instant, fetches again and returns the new values. */
  method ShortLivedTokenIsRefetched(clientId: string, clientSecret: string, now: int, later: int, shortLived: TokenBody, renewed: TokenBody)
    returns (first: GetOutcome, second: GetOutcome, secondRequest: Option<TokenRequest>)
    requires IsAscii(clientId) && IsAscii(clientSecret)
    requires shortLived.expiresIn == 5 && now <= later
    ensures first == Returned(TokenValues(shortLived.accessToken, shortLived.tokenType))
    ensures second == Returned(TokenValues(renewed.accessToken, renewed.tokenType))
    ensures secondRequest.Some? && secondRequest.value.auth == (clientId, clientSecret)
  {
    var m := new TokenManager(clientId, clientSecret);
    var firstRequest;
    first, firstRequest := m.Get(now, HttpResponse(200, Some(shortLived)));
    second, secondRequest := m.Get(later, HttpResponse(200, Some(renewed)));
  }

  /** As written, a `get` whose refresh fails with an HTTP error leaves the
      mutex held: the next `get` never returns, whatever the endpoint would
      answer. */
  method FailedGetBlocksNextGet(clientId: string, clientSecret: string, now: int, status: int, later: int, next: HttpResponse)
    returns (first: GetOutcome, second: GetOutcome, secondRequest: Option<TokenRequest>)
    requires IsAscii(clientId) && IsAscii(clientSecret) && RaisesForStatus(status)
    ensures first == Raised(HttpStatusError(status))
    ensures second == Blocked && secondRequest == None
  {
    var m := new TokenManager(clientId, clientSecret);
    var firstRequest;
    first, firstRequest := m.Get(now, HttpResponse(status, None));
    second, secondRequest := m.Get(later, next);
  }

  /** With the mutex released on failure, a failed first `get` leaves the cache
      empty and the next `get` fetches again. */
  method FailedGetIsRetried(clientId: string, clientSecret: string, now: int, status: int, later: int, body: TokenBody)
    returns (first: GetOutcome, second: GetOutcome, secondRequest: Option<TokenRequest>)
    requires IsAscii(clientId) && IsAscii(clientSecret) && RaisesForStatus(status)
    ensures first == Raised(HttpStatusError(status))
    ensures second == Returned(TokenValues(body.accessToken, body.tokenType))
    ensures secondRequest.Some? && secondRequest.value.url == TokenUrl
  {
    var m := new TokenManager(clientId, clientSecret);
    var firstRequest;
    first, firstRequest := m.GetReleasing(now, HttpResponse(status, None));
    second, secondRequest := m.GetReleasing(later, HttpResponse(200, Some(body)));
  }
}
