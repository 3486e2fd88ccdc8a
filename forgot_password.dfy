/**
 * `POST /api/auth/forgot-password`: issue a reset token for a known email.
 * The random bytes, the clock and the mail transport are parameters; a
 * throwing `sendMail` is the flag `mailFails`.
 */
module ForgotPasswordRoute {
  import opened Wrappers
  import opened Js
  import opened Seqs
  import opened Db
  import opened ResetTokens

  const EmailRequired: Reply := Reply(400, "Email is required")

  /** The one reply for a known and an unknown email alike. */
  const UniformReply: Reply := Reply(200, "If your email exists in our system, you will receive a reset link")

  /** A reply and the `password_reset_tokens` table after the request. */
  datatype Outcome = Outcome(reply: Reply, tokens: seq<TokenRow>)

  function EmailIs(email: string): UserRow -> bool {
    (u: UserRow) => u.email == email
  }

  /** The first row of `SELECT * FROM users WHERE email = ?`. */
  function FindByEmail(users: seq<UserRow>, email: string): (u: Option<UserRow>)
    ensures u.None? <==> forall i :: 0 <= i < |users| ==> users[i].email != email
    ensures u.Some? ==> u.value in users && u.value.email == email
  {
    FindFirst(users, EmailIs(email))
  }

  /**
   * The request's effect: a falsy email is refused and an unknown one gets
   * the uniform reply, both with the token table untouched; a known email
   * replaces its user's tokens by one fresh token living an hour, which
   * stays stored even when the mail then fails with 500.
   */
  function ForgotPassword(users: seq<UserRow>, tokens: seq<TokenRow>, email: Option<string>,
                          now: int, random: seq<byte>, mailFails: bool): (o: Outcome)
    requires |random| == TokenBytes
    ensures !Truthy(email) ==> o == Outcome(EmailRequired, tokens)
    ensures Truthy(email) && (forall i :: 0 <= i < |users| ==> users[i].email != email.value) ==>
              o == Outcome(UniformReply, tokens)
    ensures Truthy(email) && FindByEmail(users, email.value).Some? ==>
              var user := FindByEmail(users, email.value).value;
              && o.tokens == Issue(tokens, user.id, Hex(random), now + TokenLifetime)
              && o.reply == (if mailFails then InternalError else UniformReply)
    ensures o.tokens != tokens ==> Truthy(email) && exists i :: 0 <= i < |users| && users[i].email == email.value
  {
    if !Truthy(email) then Outcome(EmailRequired, tokens)
    else
      match FindByEmail(users, email.value)
      case None => Outcome(UniformReply, tokens)
      case Some(user) =>
        var issued := Issue(tokens, user.id, Hex(random), now + TokenLifetime);
        Outcome(if mailFails then InternalError else UniformReply, issued)
  }

  /** The handler: the two token statements run in order, then the mail step. */
  method Post(users: Table<UserRow>, tokens: Table<TokenRow>, email: Option<string>,
              now: int, random: seq<byte>, mailFails: bool) returns (reply: Reply)
    requires |random| == TokenBytes
    modifies tokens
    ensures Outcome(reply, tokens.rows) == ForgotPassword(users.rows, old(tokens.rows), email, now, random, mailFails)
  {
    if !Truthy(email) {
      return EmailRequired;
    }
    var found := FindByEmail(users.rows, email.value);
    if found.None? {
      return UniformReply;
    }
    var userId := found.value.id;
    var token := Hex(random);
    var expiresAt := now + TokenLifetime;
    tokens.Retain(NotOwnedBy(userId));
    tokens.Insert(TokenRow(userId, token, expiresAt));
    if mailFails {
      return InternalError;
    }
    return UniformReply;
  }

  /**
   * The reply does not tell whether the email is registered: when the mail
   * goes out, any two user tables give the same reply.
   */
  lemma NoEnumeration(users: seq<UserRow>, others: seq<UserRow>, tokens: seq<TokenRow>, email: Option<string>,
                      now: int, random: seq<byte>)
    requires |random| == TokenBytes
    ensures ForgotPassword(users, tokens, email, now, random, false).reply ==
            ForgotPassword(others, tokens, email, now, random, false).reply
  {
  }

  /**
   * After a request for a registered email, its user owns exactly one token
   * row, expiring an hour after `now`; every other user's rows are as before.
   */
  lemma IssuesOneToken(users: seq<UserRow>, tokens: seq<TokenRow>, email: string,
                       now: int, random: seq<byte>, mailFails: bool, user: UserRow)
    requires |random| == TokenBytes
    requires email != "" && FindByEmail(users, email) == Some(user)
    ensures RowsOf(ForgotPassword(users, tokens, Some(email), now, random, mailFails).tokens, user.id) ==
            [TokenRow(user.id, Hex(random), now + TokenLifetime)]
    ensures forall other: nat :: other != user.id ==>
              RowsOf(ForgotPassword(users, tokens, Some(email), now, random, mailFails).tokens, other) == RowsOf(tokens, other)
  {
    OneTokenPerUser(tokens, user.id, Hex(random), now + TokenLifetime);
    forall other: nat | other != user.id
      ensures RowsOf(ForgotPassword(users, tokens, Some(email), now, random, mailFails).tokens, other) == RowsOf(tokens, other)
    {
      IssueKeepsOtherUsers(tokens, user.id, Hex(random), now + TokenLifetime, other);
    }
  }

  /**
   * A freshly issued token (one no stored row carries) is live exactly
   * until its hour is up, and it is the only live row under its text.
   */
  lemma FreshTokenLive(tokens: seq<TokenRow>, userId: nat, token: string, now: int, at: int)
    requires forall i :: 0 <= i < |tokens| ==> tokens[i].token != token
    ensures LiveRows(Issue(tokens, userId, token, now + TokenLifetime), token, at) ==
            if at < now + TokenLifetime then [TokenRow(userId, token, now + TokenLifetime)] else []
  {
    var row := TokenRow(userId, token, now + TokenLifetime);
    var rest := WithoutUser(tokens, userId);
    forall i | 0 <= i < |rest|
      ensures !Live(token, at)(rest[i])
    {
      assert rest[i] in tokens;
    }
    FilterNone(rest, Live(token, at));
    assert [row][1..] == [];
    FilterAppend(rest, [row], Live(token, at));
  }
}
