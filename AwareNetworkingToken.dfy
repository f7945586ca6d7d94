/** The eager token cache of api/aware_networking_token.py: the first token is
    fetched while the object is built, and `get` fetches again only once the
    held one is expired. */
module AwareNetworkingToken {

  import opened Wrappers
  import opened TokenCommon
  import IncogniaTokenManager

  /** `urljoin(URL, TOKEN_PATH)` with `URL = 'https://api.us.incognia.com'`
      and `TOKEN_PATH = 'api/v1/token'`. */
  const TokenUrl: string := "https://api.us.incognia.com/api/v1/token"

  class AwareNetworkingToken {
    const clientId: string
    const clientSecret: string
    var value: TokenValues
    var expirationTime: int

    /** The assignments of `__init__` once `__get_new_token` has returned. */
    constructor FromToken(clientId: string, clientSecret: string, value: TokenValues, expirationTime: int)
      ensures this.clientId == clientId && this.clientSecret == clientSecret
      ensures this.value == value && this.expirationTime == expirationTime
    {
      this.clientId := clientId;
      this.clientSecret := clientSecret;
      this.value := value;
      this.expirationTime := expirationTime;
    }

    /** `__is_expired`. */
    predicate IsExpired(now: int)
      reads this
    {
      ExpiredAt(expirationTime, now)
    }

    /** `get`: the held value while it is fresh; otherwise the result of a new
        fetch, which replaces value and expiry together, or its exception, which
        leaves both as they were. */
    method Get(now: int, response: HttpResponse) returns (r: Result<TokenValues, TokenError>, request: Option<TokenRequest>)
      modifies this`value, this`expirationTime
      ensures !old(IsExpired(now)) ==>
        r == Success(old(value)) && request == None
        && value == old(value) && expirationTime == old(expirationTime)
      ensures old(IsExpired(now)) ==> request == RefreshRequest(TokenUrl, clientId, clientSecret)
      ensures old(IsExpired(now)) ==>
        match FetchNewToken(TokenUrl, clientId, clientSecret, now, response)
        case Success(fetched) => r == Success(fetched.0) && value == fetched.0 && expirationTime == fetched.1
        case Failure(e) => r == Failure(e) && value == old(value) && expirationTime == old(expirationTime)
    {
      request := None;
      if IsExpired(now) {
        request := RefreshRequest(TokenUrl, clientId, clientSecret);
        match FetchNewToken(TokenUrl, clientId, clientSecret, now, response)
        case Failure(e) =>
          return Failure(e), request;
        case Success(fetched) =>
          value, expirationTime := fetched.0, fetched.1;
      }
      r := Success(value);
    }
  }

  /** `AwareNetworkingToken(client_id, client_secret)`: a constructor that
      either holds a freshly fetched token or raises the fetch's exception. */
  method Create(clientId: string, clientSecret: string, now: int, response: HttpResponse)
    returns (r: Result<AwareNetworkingToken, TokenError>, request: Option<TokenRequest>)
    ensures request == RefreshRequest(TokenUrl, clientId, clientSecret)
    ensures r.Success? <==> FetchNewToken(TokenUrl, clientId, clientSecret, now, response).Success?
    ensures r.Failure? ==> r.error == FetchNewToken(TokenUrl, clientId, clientSecret, now, response).error
    ensures r.Success? ==>
      fresh(r.value) && r.value.clientId == clientId && r.value.clientSecret == clientSecret
      && (r.value.value, r.value.expirationTime) == FetchNewToken(TokenUrl, clientId, clientSecret, now, response).value
  {
    request := RefreshRequest(TokenUrl, clientId, clientSecret);
    var fetched := FetchNewToken(TokenUrl, clientId, clientSecret, now, response);
    if fetched.Failure? {
      return Failure(fetched.error), request;
    }
    var t := new AwareNetworkingToken.FromToken(clientId, clientSecret, fetched.value.0, fetched.value.1);
    r := Success(t);
  }

  /** A token built with `expires_in` above ten seconds is handed out by a
      `get` at the same instant without a second request. */
  method CreateThenGet(clientId: string, clientSecret: string, now: int, body: TokenBody, next: HttpResponse)
    returns (r: Result<TokenValues, TokenError>, secondRequest: Option<TokenRequest>)
    requires IsAscii(clientId) && IsAscii(clientSecret) && body.expiresIn > RefreshBeforeSeconds
    ensures r == Success(TokenValues(body.accessToken, body.tokenType)) && secondRequest == None
  {
    var created, firstRequest := Create(clientId, clientSecret, now, HttpResponse(OkStatus, Some(body)));
    var t := created.value;
    r, secondRequest := t.Get(now, next);
  }

  /** The eager fetch accepts exactly status 200, where the lazy manager of
      incognia/token_manager.py accepts every status below 400 that carries a
      body: a 201 or a 204 with a token is an error here and a success there. */
  lemma OnlyOkIsAccepted(clientId: string, clientSecret: string, now: int, response: HttpResponse)
    requires IsAscii(clientId) && IsAscii(clientSecret) && response.body.Some?
    ensures FetchNewToken(TokenUrl, clientId, clientSecret, now, response).Success? <==> response.status == OkStatus
    ensures 200 < response.status < 300 ==>
      FetchNewToken(TokenUrl, clientId, clientSecret, now, response) == Failure(HttpStatusError(response.status))
      && IncogniaTokenManager.RefreshFailure(clientId, clientSecret, response).None?
  {
  }
}
