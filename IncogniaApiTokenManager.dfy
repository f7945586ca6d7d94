/** The eager token cache of incognia_api/token_manager.py, the same protocol
    as api/aware_networking_token.py under the names of the `incognia_api`
    package: the first token is fetched while the object is built, and `get`
    fetches again only once the held one is expired. */
module IncogniaApiTokenManager {

  import opened Wrappers
  import opened TokenCommon

  /** `Endpoints.TOKEN` of incognia_api/endpoints.py. */
  const TokenUrl: string := "https://api.us.incognia.com/api/v1/token"

  class TokenManager {
    const clientId: string
    const clientSecret: string
    var tokenValues: TokenValues
    var expirationTime: int

    /** The assignments of `__init__` once `__get_new_token` has returned. */
    constructor FromToken(clientId: string, clientSecret: string, tokenValues: TokenValues, expirationTime: int)
      ensures this.clientId == clientId && this.clientSecret == clientSecret
      ensures this.tokenValues == tokenValues && this.expirationTime == expirationTime
    {
      this.clientId := clientId;
      this.clientSecret := clientSecret;
      this.tokenValues := tokenValues;
      this.expirationTime := expirationTime;
    }

    /** `__is_expired`. */
    predicate IsExpired(now: int)
      reads this
    {
      ExpiredAt(expirationTime, now)
    }

    /** `get`: the held values while they are fresh; otherwise the result of a
        new fetch, which replaces values and expiry together, or its exception,
        which leaves both as they were. */
    method Get(now: int, response: HttpResponse) returns (r: Result<TokenValues, TokenError>, request: Option<TokenRequest>)
      modifies this`tokenValues, this`expirationTime
      ensures !old(IsExpired(now)) ==>
        r == Success(old(tokenValues)) && request == None
        && tokenValues == old(tokenValues) && expirationTime == old(expirationTime)
      ensures old(IsExpired(now)) ==> request == RefreshRequest(TokenUrl, clientId, clientSecret)
      ensures old(IsExpired(now)) ==>
        match FetchNewToken(TokenUrl, clientId, clientSecret, now, response)
        case Success(fetched) => r == Success(fetched.0) && tokenValues == fetched.0 && expirationTime == fetched.1
        case Failure(e) => r == Failure(e) && tokenValues == old(tokenValues) && expirationTime == old(expirationTime)
    {
      request := None;
      if IsExpired(now) {
        request := RefreshRequest(TokenUrl, clientId, clientSecret);
        var fetched := FetchNewToken(TokenUrl, clientId, clientSecret, now, response);
        if fetched.Failure? {
          return Failure(fetched.error), request;
        }
        tokenValues, expirationTime := fetched.value.0, fetched.value.1;
      }
      r := Success(tokenValues);
    }
  }

  /** `TokenManager(client_id, client_secret)`: either a manager holding a
      freshly fetched token, or the fetch's exception. */
  method Create(clientId: string, clientSecret: string, now: int, response: HttpResponse)
    returns (r: Result<TokenManager, TokenError>, request: Option<TokenRequest>)
    ensures request == RefreshRequest(TokenUrl, clientId, clientSecret)
    ensures r.Success? <==> FetchNewToken(TokenUrl, clientId, clientSecret, now, response).Success?
    ensures r.Failure? ==> r.error == FetchNewToken(TokenUrl, clientId, clientSecret, now, response).error
    ensures r.Success? ==>
      fresh(r.value) && r.value.clientId == clientId && r.value.clientSecret == clientSecret
      && (r.value.tokenValues, r.value.expirationTime) == FetchNewToken(TokenUrl, clientId, clientSecret, now, response).value
  {
    request := RefreshRequest(TokenUrl, clientId, clientSecret);
    var fetched := FetchNewToken(TokenUrl, clientId, clientSecret, now, response);
    if fetched.Failure? {
      return Failure(fetched.error), request;
    }
    var m := new TokenManager.FromToken(clientId, clientSecret, fetched.value.0, fetched.value.1);
    r := Success(m);
  }

  /** A manager whose fetch failed with status `status` is never built: the
      constructor raises the network error carrying that status. */
  method FailedFetchRaises(clientId: string, clientSecret: string, now: int, status: int)
    returns (r: Result<TokenManager, TokenError>)
    requires IsAscii(clientId) && IsAscii(clientSecret) && status != OkStatus
    ensures r == Failure(HttpStatusError(status))
  {
    var request;
    r, request := Create(clientId, clientSecret, now, HttpResponse(status, None));
  }

  /** Once the held token is within ten seconds of its expiry, `get` fetches
      again and returns the new values; a later `get` inside the new window
      makes no request. */
  method ExpiredTokenIsReplaced(clientId: string, clientSecret: string, now: int, later: int, first: TokenBody, second: TokenBody, third: HttpResponse)
    returns (r1: Result<TokenValues, TokenError>, r2: Result<TokenValues, TokenError>, lastRequest: Option<TokenRequest>)
    requires IsAscii(clientId) && IsAscii(clientSecret)
    requires later - now >= (first.expiresIn - RefreshBeforeSeconds) * MicrosPerSecond
    requires second.expiresIn > RefreshBeforeSeconds
    ensures r1 == Success(TokenValues(second.accessToken, second.tokenType))
    ensures r2 == r1 && lastRequest == None
  {
    var created, request := Create(clientId, clientSecret, now, HttpResponse(OkStatus, Some(first)));
    var m := created.value;
    FreshWindow(now, first.expiresIn, later);
    r1, request := m.Get(later, HttpResponse(OkStatus, Some(second)));
    r2, lastRequest := m.Get(later, third);
  }
}
