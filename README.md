# Request lifecycle of the admin panel's API client

The admin panel sends every call to its backend through one shared axios
instance, set up in `lib/axios.ts`. Two interceptor pairs are registered on that
instance, and one module-level integer, `activeRequests`, is shared by all of
them:

- the request hook counts the request in, reads the token stored under
  `"token"` and, if the token is truthy, overwrites the `Authorization` header
  with `Bearer <token>`. If the storage read throws, the error is logged and
  the request goes out anyway, with its headers as the caller set them
  (fail-open);
- the request-error hook counts one request out and rejects with the error;
- the response hook counts one request out and hands the response back
  unchanged;
- the response-error hook counts one request out and rejects with the error,
  unchanged;
- `isLoading()` is `activeRequests > 0`.

The model has three modules:

- `Auth` (`auth.dfy`) covers the storage read, JavaScript truthiness of the token
  and the header rule. `AttachToken` is the specification of the header update.
  `ParseBearer` is its inverse, used to show that the header carries the token.
- `Trace` (`trace.dfy`) treats each hook as an atomic step. A history is a
  sequence of steps. `Net` gives the counter such a history produces from the
  initial 0. Its lemmas show when the counter returns to 0 and when it drifts.
- `Client` (`client.dfy`) is the imperative model. `ApiClient` is a class with
  the `int` field `activeRequests` and one method per hook. A ghost history
  `Steps` satisfies the invariant `activeRequests == Net(Steps)`. The request
  config is a class whose `headers` the request hook updates in place. The same
  object is then returned. Two client methods replay concrete situations.

The counter is an `int` with no lower bound, as in the source. When one failed
request reaches both the request-error hook (line 27) and the response-error
hook (line 39), it is counted out twice. The counter then sits one below the
number of requests actually in flight. `Trace.DoubleRejectionDrifts`,
`Trace.DriftHidesNextRequest` and `Client.DoubleRejection` state this. Each
request should be counted out exactly once. The code does not guarantee that,
and the model follows the code.

Definitions used by the contracts below, each stated through other members:

- `Auth.GetItem` is the read of a key (lib/axios.ts:17). `Auth.StoredToken` is
  the `if (token)` truthiness test (lib/axios.ts:18). `Auth.AttachFromStorage`
  states what the two give together, on the store alone.
- `Auth.BearerCredential` is the template `Bearer ${token}` (lib/axios.ts:19).
  `Auth.ParseBearerCredential` and `Auth.BearerCredentialOfParse` state that
  `Auth.ParseBearer` is its inverse.
- `Trace.Delta` is the `++`/`--` of each hook (lib/axios.ts:15, 27, 35, 39).
  `Trace.Net` is the counter from its initial 0 (lib/axios.ts:10) after a
  history of steps. `Trace.Count` and `Trace.Decrements` count the steps of a
  history. `Trace.NetCounts` and `Trace.NetAppend` characterise `Net`. The
  `ensures` of the four hook methods give each hook's exact counter change.

## Model

| member | source | states |
|---|---|---|
| `Auth.AttachToken` | lib/axios.ts:16-24 | with a truthy token, `Authorization` holds `Bearer <token>` and any previous value is overwritten; with null, "" or a failed read, the headers are unchanged; no other header is added, removed or changed |
| `Auth.ParseBearerCredential` | lib/axios.ts:19 | stripping `Bearer ` from the header value gives back the token |
| `Auth.BearerCredentialOfParse` | lib/axios.ts:19 | every header value that parses as a bearer credential is the credential of the token it yields |
| `Auth.AttachedTokenRecoverable` | lib/axios.ts:17-19 | after the hook, `Authorization` is present and parses back to the stored token |
| `Auth.AttachTokenIdempotent` | lib/axios.ts:19 | the header is overwritten, not appended to: applying the rule twice equals applying it once |
| `Auth.AttachFromStorage` | lib/axios.ts:16-24 | `Authorization` is set exactly when the store is reachable and holds a non-empty string under `"token"`; in every other case the headers are unchanged |
| `Trace.NetAppend` | lib/axios.ts:10-41 | the counter after two histories run in turn is the sum of their effects |
| `Trace.NetCounts` | lib/axios.ts:10-41 | the counter equals request steps minus request-error, response and response-error steps |
| `Trace.AllSettledIdle` | lib/axios.ts:15-44 | if every request step is answered by exactly one response step, in any order, and no request-error step ran, the counter is 0 |
| `Trace.InFlightCounted` | lib/axios.ts:15-44 | under the same pairing, the counter equals the number of unanswered requests and is not negative |
| `Trace.RequestThenResponseRestores` | lib/axios.ts:15-40 | a request step followed by one response or response-error step leaves the counter where it was |
| `Trace.DoubleRejectionDrifts` | lib/axios.ts:15-40 | a request whose failure reaches both error hooks lowers the counter by one more than it raised it |
| `Trace.DriftHidesNextRequest` | lib/axios.ts:10-44 | from idle, that double rejection leaves the counter at -1, and a following request brings it only back to 0 |
| `Client.ApiClient.constructor` | lib/axios.ts:10 | the counter starts at 0 and no hook has run |
| `Client.ApiClient.OnRequest` | lib/axios.ts:14-25 | the counter rises by exactly 1 whatever the read returns; the config's headers become `AttachToken` of the old headers and the read; its other fields are untouched; the same config object is fulfilled, never rejected |
| `Client.ApiClient.OnRequestError` | lib/axios.ts:26-29 | the counter falls by exactly 1; the promise rejects with the identical error |
| `Client.ApiClient.OnResponse` | lib/axios.ts:34-37 | the counter falls by exactly 1; the promise fulfils with the identical response |
| `Client.ApiClient.OnResponseError` | lib/axios.ts:38-41 | the counter falls by exactly 1; the promise rejects with the identical error |
| `Client.ApiClient.IsLoading` | lib/axios.ts:44 | true iff the counter is positive, that is iff more request hooks than decrementing hooks have run; reads state and changes none |
| `Client.ThreeRequests` | lib/axios.ts:14-44 | three overlapping requests, one of whose token reads throws: `isLoading` is true after each of the first five steps, while at least one request is open, and false after the sixth; each caller gets back exactly the response or error given for its own request; the request whose read throws goes out with its headers exactly as the caller gave them |
| `Client.DoubleRejection` | lib/axios.ts:10-44 | on a fresh client the double rejection leaves the counter at -1, and `isLoading` is false while the next request is in flight |

## Left out

- `axios.create` and its hard-coded `baseURL` (lib/axios.ts:5-8): these are library configuration. The transport that sends the request is also left out.
- `AsyncStorage.getItem` is an input (`Auth.Storage`), not real storage. `console.error` logging of a failed read is not modelled; it only writes to the console.
- Promises, `await` and scheduling are left out. Each hook is one atomic step, and overlapping requests are modelled only as interleavings of those steps. When axios calls which hook is axios's own dispatch logic, which is not part of this model. The model gives the effect of each hook, not which hooks axios runs for a given failure.
- Header names are matched exactly. axios's `AxiosHeaders` treats them case-insensitively, so an existing `authorization` key in lower case would be a separate entry here.
- The UI (app/_layout.tsx, components/Sidebar.tsx and the product screens) and the product service calls are left out. They only call through the client.
