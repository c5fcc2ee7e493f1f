/** The two pieces of the GraphQL transport set-up that the client computes
    itself: the credential each link carries (client/src/main.js:20-43) and
    the predicate that routes an operation to one link or the other
    (client/src/main.js:45-53). The links themselves are library objects and
    are represented only by which of them is chosen. */
module ApolloLinks {
  import opened Wrappers
  import opened Session

  const BearerPrefix := "Bearer "

  /** A reference reading of a "Bearer <credential>" value: the non-empty
      credential it carries, if it has that form at all.
      AuthorizationHeaderRoundTrip shows it inverts AuthorizationHeader. */
  function BearerCredential(h: string): (c: Option<string>)
    ensures c.Some? ==> h == BearerPrefix + c.value && c.value != ""
  {
    if |h| > |BearerPrefix| && h[..|BearerPrefix|] == BearerPrefix then
      Some(h[|BearerPrefix|..])
    else
      None
  }

  /** Any non-empty credential can be read back from its header. */
  lemma BearerCredentialOfPrefixed(v: string)
    requires v != ""
    ensures BearerCredential(BearerPrefix + v) == Some(v)
  {
  }

  /** The `Authorization` header the middleware link puts on every HTTP
      operation (client/src/main.js:26): a token that is truthy is sent as a
      bearer credential, otherwise the header is the empty string. */
  function AuthorizationHeader(token: Token): (h: string)
    ensures h == "" <==> !Truthy(token)
  {
    if Truthy(token) then BearerPrefix + token.value else ""
  }

  /** What a server reads back from the HTTP header is exactly the token
      when it is truthy, and nothing at all otherwise. */
  lemma AuthorizationHeaderRoundTrip(token: Token)
    ensures BearerCredential(AuthorizationHeader(token)) == if Truthy(token) then token else None
  {
  }

  /** The `Authorization` connection parameter of the WebSocket link
      (client/src/main.js:40): the token is interpolated unconditionally, so
      it always begins with the bearer prefix. */
  function WsAuthorization(token: Token): (p: string)
    ensures |p| >= |BearerPrefix| && p[..|BearerPrefix|] == BearerPrefix
  {
    BearerPrefix + JsString(token)
  }

  /** A missing token is sent over the WebSocket as the credential "null",
      and an empty one as a bare prefix that carries no credential; a
      truthy token is sent as itself. */
  lemma WsAuthorizationCredential(token: Token)
    ensures token == None ==> BearerCredential(WsAuthorization(token)) == Some("null")
    ensures token == Some("") ==> WsAuthorization(token) == BearerPrefix
    ensures token == Some("") ==> BearerCredential(WsAuthorization(token)) == None
    ensures Truthy(token) ==> BearerCredential(WsAuthorization(token)) == token
  {
  }

  /** The HTTP header and the WebSocket parameter agree exactly when the
      token is truthy. */
  lemma HeaderAndWsParameterAgreeIff(token: Token)
    ensures AuthorizationHeader(token) == WsAuthorization(token) <==> Truthy(token)
  {
  }

  /** The part of `getMainDefinition(query)` the split predicate reads. */
  datatype Definition = Definition(kind: string, operation: string)

  /** The two links `split` chooses between (client/src/main.js:51-52). */
  datatype Transport = WebSocket | AuthenticatedHttp

  /** The split test of client/src/main.js:47-50. */
  predicate IsSubscription(def: Definition)
  {
    def.kind == "OperationDefinition" && def.operation == "subscription"
  }

  /** The link `split` hands an operation to: the first one when the test
      holds, the second one otherwise (client/src/main.js:45-53). */
  function ChooseTransport(def: Definition): (t: Transport)
    ensures t == WebSocket <==> def.kind == "OperationDefinition" && def.operation == "subscription"
  {
    if IsSubscription(def) then WebSocket else AuthenticatedHttp
  }

  /** Queries, mutations and every definition that is not an operation go
      over the authenticated HTTP link. */
  lemma NonSubscriptionsUseHttp(def: Definition)
    requires def.kind != "OperationDefinition" || def.operation in {"query", "mutation"}
    ensures ChooseTransport(def) == AuthenticatedHttp
  {
  }

  /** The credential an operation travels with, given the transport chosen
      for it. */
  function CredentialSent(def: Definition, token: Token): string
  {
    match ChooseTransport(def)
    case WebSocket => WsAuthorization(token)
    case AuthenticatedHttp => AuthorizationHeader(token)
  }

  /** With a truthy token every operation carries the same credential,
      whichever link takes it; without one, subscriptions still carry a
      bearer prefix while HTTP operations carry an empty header. */
  lemma CredentialIndependentOfTransportIff(token: Token)
    ensures Truthy(token) <==>
      forall def: Definition :: CredentialSent(def, token) == BearerPrefix + JsString(token)
  {
    if !Truthy(token) {
      var http := Definition("OperationDefinition", "query");
      assert CredentialSent(http, token) == "";
    }
  }
}
