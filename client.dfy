/**
 The shared API client of lib/axios.ts: the module-level counter
 `activeRequests`, the request interceptor with its error handler, the response
 interceptor with its error handler, and `isLoading`. Each callback runs as one
 atomic step on the client object; the token read is an input.
 */
module Client {
  import opened Auth
  import opened Trace

  /** The request config the request hook receives and hands on. The hook
      writes its headers in place and returns the same object. */
  class RequestConfig {
    var verb: string
    var url: string
    var headers: Headers
    var data: Option<string>

    constructor (verb: string, url: string, headers: Headers, data: Option<string>)
      ensures this.verb == verb && this.url == url
      ensures this.headers == headers && this.data == data
    {
      this.verb, this.url, this.headers, this.data := verb, url, headers, data;
    }
  }

  /** A response from the server, handed back unchanged. */
  datatype HttpResponse = HttpResponse(status: int, body: string, headers: Headers)

  /** An error a hook is handed (a network failure, a non-2xx response, or a
      rejection from an earlier stage), handed back unchanged. */
  datatype HttpError = HttpError(message: string, response: Option<HttpResponse>)

  /** How the promise a hook returns settles. */
  datatype Settled<T> = Fulfilled(value: T) | Rejected(error: HttpError)

  class ApiClient {
    /** The in-flight counter; a plain integer with no lower bound. */
    var activeRequests: int
    /** The hooks run on this client so far, oldest first. */
    ghost var Steps: seq<Hook>

    /** The counter is the net effect of the hooks run so far. */
    ghost predicate Valid()
      reads this
    {
      activeRequests == Net(Steps)
    }

    /** The counter starts at 0 when the module is loaded. */
    constructor ()
      ensures Valid() && Steps == [] && activeRequests == 0
    {
      activeRequests := 0;
      Steps := [];
    }

    /** Request fulfilled hook: counts the request in, reads the token from
        `store` and, when it is truthy, overwrites `Authorization` on the config
        in place. A read that throws is swallowed (fail-open): the config is
        still fulfilled, with its headers as they were. */
    method OnRequest(config: RequestConfig, store: Storage) returns (out: Settled<RequestConfig>)
      requires Valid()
      modifies this, config`headers
      ensures Valid() && Steps == old(Steps) + [Request]
      ensures activeRequests == old(activeRequests) + 1
      ensures out == Fulfilled(config)
      ensures config.headers == AttachToken(old(config.headers), GetItem(store, TokenKey))
      ensures config.verb == old(config.verb) && config.url == old(config.url) && config.data == old(config.data)
    {
      activeRequests := activeRequests + 1;
      Steps := Steps + [Request];
      NetSnoc(old(Steps), Request);
      var read := GetItem(store, TokenKey);
      match read {
        case Found(token) =>
          if token != "" {
            config.headers := config.headers[AuthorizationHeader := BearerCredential(token)];
          }
        case Missing =>
        case Failed(_) =>
          // the error is logged to the console and otherwise ignored
      }
      out := Fulfilled(config);
    }

    /** Request rejected hook: counts one request out and rejects with the
        error it was given. */
    method OnRequestError(error: HttpError) returns (out: Settled<RequestConfig>)
      requires Valid()
      modifies this
      ensures Valid() && Steps == old(Steps) + [RequestError]
      ensures activeRequests == old(activeRequests) - 1
      ensures out == Rejected(error)
    {
      activeRequests := activeRequests - 1;
      Steps := Steps + [RequestError];
      NetSnoc(old(Steps), RequestError);
      out := Rejected(error);
    }

    /** Response fulfilled hook: counts one request out and fulfils with the
        response it was given. */
    method OnResponse(response: HttpResponse) returns (out: Settled<HttpResponse>)
      requires Valid()
      modifies this
      ensures Valid() && Steps == old(Steps) + [Response]
      ensures activeRequests == old(activeRequests) - 1
      ensures out == Fulfilled(response)
    {
      activeRequests := activeRequests - 1;
      Steps := Steps + [Response];
      NetSnoc(old(Steps), Response);
      out := Fulfilled(response);
    }

    /** Response rejected hook: counts one request out and rejects with the
        error it was given. */
    method OnResponseError(error: HttpError) returns (out: Settled<HttpResponse>)
      requires Valid()
      modifies this
      ensures Valid() && Steps == old(Steps) + [ResponseError]
      ensures activeRequests == old(activeRequests) - 1
      ensures out == Rejected(error)
    {
      activeRequests := activeRequests - 1;
      Steps := Steps + [ResponseError];
      NetSnoc(old(Steps), ResponseError);
      out := Rejected(error);
    }

    /** Whether any request is in flight: the counter is positive exactly when
        more request hooks than decrementing hooks have run on this client. */
    function IsLoading(): (loading: bool)
      reads this
      requires Valid()
      ensures loading <==> activeRequests > 0
      ensures loading <==> Count(Steps, Request) > Decrements(Steps)
    {
      NetCounts(Steps);
      activeRequests > 0
    }
  }

  /** Three requests in flight at once on a fresh client: the first is sent
      with a stored token and answered, the second meets a store that throws
      and is still sent, with its headers as the caller gave them, and
      answered, the third fails on the network. `loading` records `isLoading`
      after each of the six steps: true while any request is unanswered, false
      once all three are. Every caller gets its own outcome back. */
  method ThreeRequests(token: string, headers: Headers, ok1: HttpResponse, ok2: HttpResponse, fault: HttpError)
    returns (loading: seq<bool>,
             first: Settled<HttpResponse>, second: Settled<HttpResponse>, third: Settled<HttpResponse>,
             firstHeaders: Headers, secondHeaders: Headers)
    requires token != ""
    ensures loading == [true, true, true, true, true, false]
    ensures first == Fulfilled(ok1) && second == Fulfilled(ok2) && third == Rejected(fault)
    ensures AuthorizationHeader in firstHeaders && firstHeaders[AuthorizationHeader] == BearerPrefix + token
    ensures secondHeaders == headers
  {
    var client := new ApiClient();
    var c1 := new RequestConfig("GET", "/products", headers, None);
    var c2 := new RequestConfig("GET", "/products/1", headers, None);
    var c3 := new RequestConfig("PATCH", "/products/1/stock", headers, Some("{}"));
    var sent1 := client.OnRequest(c1, Reachable(map[TokenKey := token]));
    loading := [client.IsLoading()];
    var sent2 := client.OnRequest(c2, Unreachable("storage unavailable"));
    loading := loading + [client.IsLoading()];
    var sent3 := client.OnRequest(c3, Reachable(map[TokenKey := token]));
    loading := loading + [client.IsLoading()];
    first := client.OnResponse(ok1);
    loading := loading + [client.IsLoading()];
    third := client.OnResponseError(fault);
    loading := loading + [client.IsLoading()];
    second := client.OnResponse(ok2);
    loading := loading + [client.IsLoading()];
    firstHeaders, secondHeaders := c1.headers, c2.headers;
  }

  /** On a fresh client, a request whose failure reaches both the request-error
      hook and the response-error hook leaves the counter at -1; a request sent
      after that is in flight while `isLoading` says false. */
  method DoubleRejection(headers: Headers, store: Storage, fault: HttpError)
    returns (counter: int, loadingWhileInFlight: bool)
    ensures counter == -1
    ensures !loadingWhileInFlight
  {
    var client := new ApiClient();
    var config := new RequestConfig("DELETE", "/products/1", headers, None);
    var sent := client.OnRequest(config, store);
    var rejected := client.OnRequestError(fault);
    var failed := client.OnResponseError(fault);
    counter := client.activeRequests;
    sent := client.OnRequest(config, store);
    loadingWhileInFlight := client.IsLoading();
  }
}
