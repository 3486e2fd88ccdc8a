/**
 * `POST /api/auth/reset-password`: consume a live token to replace its
 * owner's password hash. The bcrypt hash is the parameter `hash`.
 */
module ResetPasswordRoute {
  import opened Wrappers
  import opened Js
  import opened Seqs
  import opened Db
  import opened ResetTokens
  import VerifyResetTokenRoute
  import ForgotPasswordRoute

  const Required: Reply := Reply(400, "Token and password are required")
  const InvalidToken: Reply := Reply(400, "Invalid or expired token")
  const ResetDone: Reply := Reply(200, "Password reset successful")

  /** A reply and the two tables after the request. */
  datatype Outcome = Outcome(reply: Reply, users: seq<UserRow>, tokens: seq<TokenRow>)

  function SetPasswordOf(userId: nat, hashed: string): UserRow -> UserRow {
    (u: UserRow) => if u.id == userId then u.(password := hashed) else u
  }

  /** The `users` table after `UPDATE users SET password = ? WHERE id = ?`. */
  function SetPassword(users: seq<UserRow>, userId: nat, hashed: string): seq<UserRow> {
    Map(users, SetPasswordOf(userId, hashed))
  }

  /**
   * The request's effect: a falsy token or password, or a token with no live
   * row, is refused with both tables untouched; otherwise the owner of the
   * first live row gets the hash of the new password and every row of the
   * token is deleted.
   */
  function ResetPassword(users: seq<UserRow>, tokens: seq<TokenRow>, token: Option<string>, password: Option<string>,
                         now: int, hash: string -> string): (o: Outcome)
    ensures !Truthy(token) || !Truthy(password) ==> o == Outcome(Required, users, tokens)
    ensures Truthy(token) && Truthy(password) && LiveRows(tokens, token.value, now) == [] ==>
              o == Outcome(InvalidToken, users, tokens)
    ensures Truthy(token) && Truthy(password) && LiveRows(tokens, token.value, now) != [] ==>
              var owner := LiveRows(tokens, token.value, now)[0].userId;
              && o.reply == ResetDone
              && o.users == SetPassword(users, owner, hash(password.value))
              && o.tokens == WithoutToken(tokens, token.value)
    ensures o.reply.status == 200 <==> o.reply == ResetDone
  {
    if !Truthy(token) || !Truthy(password) then Outcome(Required, users, tokens)
    else
      var live := LiveRows(tokens, token.value, now);
      if live == [] then Outcome(InvalidToken, users, tokens)
      else
        var userId := live[0].userId;
        Outcome(ResetDone, SetPassword(users, userId, hash(password.value)), WithoutToken(tokens, token.value))
  }

  /** The handler: look the token up, update the password, then delete the token. */
  method Post(users: Table<UserRow>, tokens: Table<TokenRow>, token: Option<string>, password: Option<string>,
              now: int, hash: string -> string) returns (reply: Reply)
    modifies users, tokens
    ensures Outcome(reply, users.rows, tokens.rows) == ResetPassword(old(users.rows), old(tokens.rows), token, password, now, hash)
  {
    if !Truthy(token) || !Truthy(password) {
      return Required;
    }
    var live := LiveRows(tokens.rows, token.value, now);
    if live == [] {
      return InvalidToken;
    }
    var userId := live[0].userId;
    var hashed := hash(password.value);
    users.Update(SetPasswordOf(userId, hashed));
    tokens.Retain(OtherToken(token.value));
    return ResetDone;
  }

  /** Only the owner's rows change, and their password becomes the hash of the new one. */
  lemma OnlyOwnerChanges(users: seq<UserRow>, tokens: seq<TokenRow>, token: string, password: string,
                         now: int, hash: string -> string)
    requires token != "" && password != "" && LiveRows(tokens, token, now) != []
    ensures var o := ResetPassword(users, tokens, Some(token), Some(password), now, hash);
            var owner := LiveRows(tokens, token, now)[0].userId;
            && (exists j :: 0 <= j < |tokens| && IsLive(tokens[j], token, now) && tokens[j].userId == owner)
            && |o.users| == |users|
            && forall i :: 0 <= i < |users| ==>
                 (users[i].id == owner ==> o.users[i] == users[i].(password := hash(password)))
                 && (users[i].id != owner ==> o.users[i] == users[i])
  {
    var live := LiveRows(tokens, token, now);
    assert live[0] in tokens && IsLive(live[0], token, now);
    var j :| 0 <= j < |tokens| && tokens[j] == live[0];
  }

  /** Reset and verify apply the same validity rule to a token. */
  lemma AgreesWithVerify(users: seq<UserRow>, tokens: seq<TokenRow>, token: string, password: string,
                         now: int, hash: string -> string)
    requires token != "" && password != ""
    ensures ResetPassword(users, tokens, Some(token), Some(password), now, hash).reply == ResetDone <==>
            VerifyResetTokenRoute.VerifyResetToken(tokens, Some(token), now) == VerifyResetTokenRoute.TokenValid
  {
    LiveRowsNonEmpty(tokens, token, now);
  }

  /**
   * A token works once: after a successful reset, verifying it fails and a
   * second reset with it is refused and changes nothing, at any later time.
   */
  lemma SingleUse(users: seq<UserRow>, tokens: seq<TokenRow>, token: string, password: string, again: string,
                  now: int, later: int, hash: string -> string)
    requires token != "" && password != "" && again != ""
    requires ResetPassword(users, tokens, Some(token), Some(password), now, hash).reply == ResetDone
    ensures var o := ResetPassword(users, tokens, Some(token), Some(password), now, hash);
            && VerifyResetTokenRoute.VerifyResetToken(o.tokens, Some(token), later) == VerifyResetTokenRoute.InvalidToken
            && ResetPassword(o.users, o.tokens, Some(token), Some(again), later, hash) == Outcome(InvalidToken, o.users, o.tokens)
  {
    ConsumedTokenIsDead(tokens, token, later);
  }

  /**
   * The whole lifecycle: a token issued for a registered email (one no stored
   * row carries yet) resets that user's password if used within the hour,
   * and is gone afterwards.
   */
  lemma IssueThenReset(users: seq<UserRow>, tokens: seq<TokenRow>, email: string, user: UserRow,
                       random: seq<byte>, password: string, issuedAt: int, usedAt: int, hash: string -> string)
    requires |random| == TokenBytes && email != "" && password != ""
    requires ForgotPasswordRoute.FindByEmail(users, email) == Some(user)
    requires forall i :: 0 <= i < |tokens| ==> tokens[i].token != Hex(random)
    requires usedAt < issuedAt + TokenLifetime
    ensures var issued := ForgotPasswordRoute.ForgotPassword(users, tokens, Some(email), issuedAt, random, false).tokens;
            var o := ResetPassword(users, issued, Some(Hex(random)), Some(password), usedAt, hash);
            && o.reply == ResetDone
            && o.users == SetPassword(users, user.id, hash(password))
            && LiveRows(o.tokens, Hex(random), usedAt) == []
  {
    var token := Hex(random);
    var row := TokenRow(user.id, token, issuedAt + TokenLifetime);
    var issued := ForgotPasswordRoute.ForgotPassword(users, tokens, Some(email), issuedAt, random, false).tokens;
    assert issued == Issue(tokens, user.id, token, issuedAt + TokenLifetime);
    ForgotPasswordRoute.FreshTokenLive(tokens, user.id, token, issuedAt, usedAt);
    assert LiveRows(issued, token, usedAt) == [row];
    assert |token| == 2 * TokenBytes;
    assert Truthy(Some(token)) && Truthy(Some(password));
    assert LiveRows(issued, token, usedAt)[0].userId == user.id;
    var o := ResetPassword(users, issued, Some(token), Some(password), usedAt, hash);
    assert o.users == SetPassword(users, user.id, hash(password));
    ConsumedTokenIsDead(issued, token, usedAt);
  }
}
