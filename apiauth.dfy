/** The bearer-token gate in front of the customer-request API. */
module ApiAuth {
  import opened Wrappers
  import opened Strings
  import opened Config
  import opened Errors
  import opened Bearer

  const TokenVar := "API_BEARER_TOKEN"
  const NotConfiguredMessage := "API_BEARER_TOKEN is not configured"
  const InvalidTokenMessage := "Invalid or missing bearer token"

  /** Returns normally (`Ok`) or throws an `UnauthorizedError`. The
      configured token is trimmed; unset or blank fails closed. */
  function RequireBearerAuth(env: Env, authorization: Option<string>): (r: Result<(), AppError>)
    ensures r.Err? ==> r.error.UnauthorizedError?
  {
    var token := if TokenVar in env then Trim(env[TokenVar]) else "";
    if token == "" then Err(UnauthorizedError(NotConfiguredMessage))
    else if !VerifyBearerToken(authorization, token) then Err(UnauthorizedError(InvalidTokenMessage))
    else Ok(())
  }

  /** The gate passes exactly when a non-blank token is configured and the
      header carries it; with no token configured every request is refused
      with the "not configured" message, whatever its header, and with one
      configured every refusal says the token is invalid or missing. */
  lemma RequireBearerAuthIff(env: Env, authorization: Option<string>)
    ensures RequireBearerAuth(env, authorization).Ok? <==>
      TokenVar in env && !AllSpace(env[TokenVar]) && VerifyBearerToken(authorization, Trim(env[TokenVar]))
    ensures TokenVar !in env || AllSpace(env[TokenVar]) ==>
      RequireBearerAuth(env, authorization) == Err(UnauthorizedError(NotConfiguredMessage))
    ensures TokenVar in env && !AllSpace(env[TokenVar]) && RequireBearerAuth(env, authorization).Err? ==>
      RequireBearerAuth(env, authorization) == Err(UnauthorizedError(InvalidTokenMessage))
  {
    if TokenVar in env { TrimEmptyIffAllSpace(env[TokenVar]); }
  }

  /** A well-formed header carrying the configured token (padding around the
      configured value is ignored) passes. */
  lemma AcceptsConfiguredToken(env: Env, pad1: string, token: string, pad2: string, scheme: string)
    requires AllSpace(pad1) && AllSpace(pad2) && token != [] && NoSpace(token)
    requires env == map[TokenVar := pad1 + token + pad2]
    requires ToLower(scheme) == "bearer"
    ensures RequireBearerAuth(env, Some(scheme + " " + token)).Ok?
  {
    assert Trimmed(token) by { assert !IsSpace(token[0]) && !IsSpace(token[|token| - 1]); }
    TrimOfPadded(pad1, token, pad2);
    assert Trim(env[TokenVar]) == token;
    AcceptsPlainHeader(scheme, token);
  }
}
