/**
 The authorization part of the request interceptor of lib/axios.ts: what the
 token read from local storage can resolve to, which of those outcomes count as
 "a token" under JavaScript truthiness, and how the `Authorization` header is
 written from it.
 */
module Auth {

  datatype Option<T> = None | Some(value: T)

  /** Header names and values of one outgoing request. */
  type Headers = map<string, string>

  /** The storage key the token is kept under. */
  const TokenKey: string := "token"

  /** The header the credential is written to. */
  const AuthorizationHeader: string := "Authorization"

  /** What precedes the token in the header value. */
  const BearerPrefix: string := "Bearer "

  /** The persistent key-value store as seen by one read: either it answers
      from its entries, or the read throws. */
  datatype Storage = Reachable(items: map<string, string>) | Unreachable(reason: string)

  /** What `getItem` resolves or rejects with: a stored string, null, or a thrown error. */
  datatype TokenRead = Found(token: string) | Missing | Failed(reason: string)

  /** One read of `key`: a missing key resolves to null, an unreachable store throws. */
  function GetItem(store: Storage, key: string): (r: TokenRead)
  {
    match store
    case Unreachable(reason) => Failed(reason)
    case Reachable(items) => if key in items then Found(items[key]) else Missing
  }

  /** The token the `if (token)` test lets through: a string that is neither null
      nor empty. A failed read never reaches the test. */
  function StoredToken(read: TokenRead): (r: Option<string>)
  {
    if read.Found? && read.token != "" then Some(read.token) else None
  }

  /** The header value for a token. */
  function BearerCredential(token: string): (v: string)
  {
    BearerPrefix + token
  }

  /** Reads a token back out of a header value; None when the value is not a
      bearer credential. */
  function ParseBearer(v: string): (r: Option<string>)
  {
    if |BearerPrefix| <= |v| && v[..|BearerPrefix|] == BearerPrefix
    then Some(v[|BearerPrefix|..])
    else None
  }

  /** ParseBearer undoes BearerCredential ... */
  lemma ParseBearerCredential(token: string)
    ensures ParseBearer(BearerCredential(token)) == Some(token)
  {
  }

  /** ... and every value it accepts is the credential of what it returns. */
  lemma BearerCredentialOfParse(v: string)
    ensures ParseBearer(v).Some? ==> BearerCredential(ParseBearer(v).value) == v
  {
  }

  /** The headers after the request hook: with a truthy token, `Authorization`
      is (over)written with its bearer credential; otherwise nothing changes.
      No other header is added, removed or changed. */
  function AttachToken(headers: Headers, read: TokenRead): (r: Headers)
    ensures forall k :: k != AuthorizationHeader ==> (k in r <==> k in headers)
    ensures forall k :: k in headers && k != AuthorizationHeader ==> r[k] == headers[k]
    ensures StoredToken(read).Some? ==>
              AuthorizationHeader in r && r[AuthorizationHeader] == BearerCredential(StoredToken(read).value)
    ensures StoredToken(read).None? ==> r == headers
  {
    match read
    case Found(token) =>
      if token != "" then headers[AuthorizationHeader := BearerCredential(token)] else headers
    case Missing => headers
    case Failed(_) => headers
  }

  /** The header the hook writes carries the stored token back out. */
  lemma AttachedTokenRecoverable(headers: Headers, read: TokenRead)
    requires StoredToken(read).Some?
    ensures AuthorizationHeader in AttachToken(headers, read)
    ensures ParseBearer(AttachToken(headers, read)[AuthorizationHeader]) == Some(read.token)
  {
  }

  /** Reading the token twice gives the same headers as reading it once: the
      header is overwritten, not appended to. */
  lemma AttachTokenIdempotent(headers: Headers, read: TokenRead)
    ensures AttachToken(AttachToken(headers, read), read) == AttachToken(headers, read)
  {
  }

  /** The whole rule from the store's point of view: `Authorization` is set
      exactly when the store is reachable and holds a non-empty string under
      "token"; in every other case the headers come back unchanged. */
  lemma AttachFromStorage(headers: Headers, store: Storage)
    ensures var r := AttachToken(headers, GetItem(store, TokenKey));
            if store.Reachable? && TokenKey in store.items && store.items[TokenKey] != ""
            then AuthorizationHeader in r && r[AuthorizationHeader] == BearerPrefix + store.items[TokenKey]
            else r == headers
  {
  }
}
