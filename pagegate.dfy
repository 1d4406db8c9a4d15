/** The query-token gate in front of the dashboard pages. */
module PageGate {
  import opened Wrappers
  import opened Strings
  import opened Config

  const SecretVar := "ACCESS_TOKEN"

  /** The only paths the gate runs on. */
  const Matcher: seq<string> := ["/", "/donde", "/ondamx"]

  datatype PageResponse = Continue | Unauthorized(status: int, body: string)

  /** The gate itself, given the `token` query parameter. */
  function Middleware(env: Env, token: Option<string>): PageResponse {
    var secret := if SecretVar in env then Trim(env[SecretVar]) else "";
    if secret == "" then Continue
    else if Truthy(token) && token.value == secret then Continue
    else Unauthorized(401, "Unauthorized")
  }

  /** A request to `path`: only the matched paths reach the gate. */
  function HandleRequest(path: string, env: Env, token: Option<string>): PageResponse {
    if path in Matcher then Middleware(env, token) else Continue
  }

  /** With no secret (unset or blank) every request passes; with one, a
      matched path passes exactly when the token equals the trimmed secret,
      and is otherwise refused with 401 "Unauthorized". Other paths always
      pass. */
  lemma GateDecision(path: string, env: Env, token: Option<string>)
    ensures path !in Matcher ==> HandleRequest(path, env, token) == Continue
    ensures SecretVar !in env || AllSpace(env[SecretVar]) ==> HandleRequest(path, env, token) == Continue
    ensures path in Matcher && SecretVar in env && !AllSpace(env[SecretVar]) ==>
      (HandleRequest(path, env, token) == Continue <==> token == Some(Trim(env[SecretVar])))
    ensures HandleRequest(path, env, token) != Continue ==>
      HandleRequest(path, env, token) == Unauthorized(401, "Unauthorized")
  {
    if SecretVar in env { TrimEmptyIffAllSpace(env[SecretVar]); }
  }
}
