/** The session token of the client: the value `localStorage.getItem(AUTH_TOKEN)`
    yields, and how the client's conditionals read it. */
module Session {
  import opened Wrappers

  /** `localStorage.getItem` returns a string, or null when the key is absent. */
  type Token = Option<string>

  /** JavaScript truthiness of a string-or-null value, as `token ? ... : ...`
      (client/src/main.js:26) and `if (token)` (client/src/main.js:92) read it:
      null and the empty string are the only falsy values. */
  function Truthy(token: Token): (b: bool)
    ensures b <==> token != None && token != Some("")
  {
    token.Some? && token.value != ""
  }

  /** The "user is not logged in" test of client/src/main.js:85, written with
      its three disjuncts as they stand. The two equality tests can never
      be what makes it true: it holds exactly for a missing or empty token. */
  function Unauthenticated(token: Token): (b: bool)
    ensures b <==> token == None || token == Some("")
    ensures b <==> !Truthy(token)
  {
    !Truthy(token) || token == Some("") || token == None
  }

  /** `String(token)`, as a template literal renders a string-or-null:
      null becomes the four characters "null". */
  function JsString(token: Token): string
  {
    match token
    case None => "null"
    case Some(v) => v
  }

  /** A missing token is rendered as "null" and a present one as itself, so
      a missing token and the literal string "null" cannot be told apart
      once rendered. */
  lemma MissingTokenRendersAsNullString(token: Token)
    ensures token == None ==> JsString(token) == "null"
    ensures token.Some? ==> JsString(token) == token.value
    ensures JsString(token) == JsString(Some("null")) <==> token == None || token == Some("null")
  {
  }
}
