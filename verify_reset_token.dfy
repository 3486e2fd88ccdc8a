/**
 * `GET /api/auth/verify-reset-token?token=...`: a read-only lookup of a live
 * reset token. The query parameter is `None` when it is absent.
 */
module VerifyResetTokenRoute {
  import opened Wrappers
  import opened Js
  import opened Db
  import opened ResetTokens

  const TokenRequired: Reply := Reply(400, "Token is required")
  const InvalidToken: Reply := Reply(400, "Invalid or expired token")
  const TokenValid: Reply := Reply(200, "Token is valid")

  /**
   * 200 exactly when some stored row carries the token and expires strictly
   * after `now`; an unknown and an expired token get one and the same 400.
   */
  function VerifyResetToken(tokens: seq<TokenRow>, token: Option<string>, now: int): (r: Reply)
    ensures !Truthy(token) ==> r == TokenRequired
    ensures Truthy(token) ==>
              (r == TokenValid <==> exists i :: 0 <= i < |tokens| && tokens[i].token == token.value && tokens[i].expiresAt > now)
    ensures Truthy(token) && r != TokenValid ==> r == InvalidToken
  {
    if !Truthy(token) then TokenRequired
    else
      LiveRowsNonEmpty(tokens, token.value, now);
      if LiveRows(tokens, token.value, now) == [] then InvalidToken
    else TokenValid
  }

  /** A row that expires at `now` no longer validates: the comparison is strict. */
  lemma ExpiresAtNowIsRejected(tokens: seq<TokenRow>, token: string, now: int)
    requires token != ""
    requires forall i :: 0 <= i < |tokens| && tokens[i].token == token ==> tokens[i].expiresAt == now
    ensures VerifyResetToken(tokens, Some(token), now) == InvalidToken
  {
    ExpiryIsStrict(tokens, token, now);
  }
}
