/**
 * The `password_reset_tokens` table as the three reset routes use it: the
 * token text, the statements they run on the table, and the lifecycle
 * facts that follow (one live token per user, strict expiry, single use).
 */
module ResetTokens {
  import opened Seqs
  import opened Db

  newtype byte = x: int | 0 <= x < 256

  /** `expiresAt.setHours(expiresAt.getHours() + 1)`, in seconds. */
  const TokenLifetime: int := 3600

  /** The number of random bytes behind a token: `randomBytes(32)`. */
  const TokenBytes: nat := 32

  function HexDigit(d: int): (c: char)
    requires 0 <= d < 16
    ensures IsHexDigit(c)
  {
    "0123456789abcdef"[d]
  }

  lemma HexDigitValue(d: int)
    requires 0 <= d < 16
    ensures HexValue(HexDigit(d)) == d
  {
  }

  /** The two digits of a byte read back as that byte. */
  lemma ByteDigits(b: byte)
    ensures DecodePair(HexDigit(b as int / 16), HexDigit(b as int % 16)) == b
  {
    HexDigitValue(b as int / 16);
    HexDigitValue(b as int % 16);
  }

  /** One byte from its high and low hex digits. */
  function DecodePair(hi: char, lo: char): byte
    requires IsHexDigit(hi) && IsHexDigit(lo)
  {
    (HexValue(hi) * 16 + HexValue(lo)) as byte
  }

  predicate IsHexDigit(c: char) {
    '0' <= c <= '9' || 'a' <= c <= 'f'
  }

  function HexValue(c: char): (d: int)
    requires IsHexDigit(c)
    ensures 0 <= d < 16 && HexDigit(d) == c
  {
    if c <= '9' then c as int - '0' as int else c as int - 'a' as int + 10
  }

  /** `buffer.toString("hex")`: two lower-case digits per byte, high nibble first (Base16). */
  function Hex(bytes: seq<byte>): (s: string)
    ensures |s| == 2 * |bytes|
    ensures forall i :: 0 <= i < |s| ==> IsHexDigit(s[i])
  {
    if bytes == [] then []
    else [HexDigit(bytes[0] as int / 16), HexDigit(bytes[0] as int % 16)] + Hex(bytes[1..])
  }

  /** Base16 decoding, the inverse of `Hex`. */
  function Unhex(s: string): seq<byte>
    requires |s| % 2 == 0
    requires forall i :: 0 <= i < |s| ==> IsHexDigit(s[i])
  {
    if s == [] then []
    else [DecodePair(s[0], s[1])] + Unhex(s[2..])
  }

  /** Decoding a token gives back its random bytes. */
  lemma {:induction false} HexRoundTrip(bytes: seq<byte>)
    ensures Unhex(Hex(bytes)) == bytes
  {
    if bytes != [] {
      var s := Hex(bytes);
      var b := bytes[0];
      ByteDigits(b);
      assert s[0] == HexDigit(b as int / 16) && s[1] == HexDigit(b as int % 16);
      assert s[2..] == Hex(bytes[1..]);
      HexRoundTrip(bytes[1..]);
    }
  }

  /** So distinct random bytes give distinct tokens, and a token is 64 lower-case hex digits. */
  lemma TokenShape(bytes: seq<byte>, other: seq<byte>)
    requires |bytes| == TokenBytes
    ensures |Hex(bytes)| == 64
    ensures forall i :: 0 <= i < 64 ==> IsHexDigit(Hex(bytes)[i])
    ensures Hex(bytes) == Hex(other) ==> bytes == other
  {
    HexRoundTrip(bytes);
    HexRoundTrip(other);
  }

  /** `token = ? AND expires_at > NOW()`. */
  predicate IsLive(row: TokenRow, token: string, now: int) {
    row.token == token && row.expiresAt > now
  }

  function Live(token: string, now: int): TokenRow -> bool {
    (r: TokenRow) => IsLive(r, token, now)
  }

  /** `SELECT * FROM password_reset_tokens WHERE token = ? AND expires_at > NOW()`. */
  function LiveRows(rows: seq<TokenRow>, token: string, now: int): (live: seq<TokenRow>)
    ensures forall i :: 0 <= i < |live| ==> live[i] in rows && IsLive(live[i], token, now)
    ensures forall i :: 0 <= i < |rows| && IsLive(rows[i], token, now) ==> rows[i] in live
  {
    Filter(rows, Live(token, now))
  }

  /** Some row is live under `token` exactly when the lookup returns a row. */
  lemma LiveRowsNonEmpty(rows: seq<TokenRow>, token: string, now: int)
    ensures LiveRows(rows, token, now) != [] <==> exists i :: 0 <= i < |rows| && IsLive(rows[i], token, now)
  {
    var live := LiveRows(rows, token, now);
    if live != [] {
      assert live[0] in rows;
      var j :| 0 <= j < |rows| && rows[j] == live[0];
      assert IsLive(rows[j], token, now);
    }
  }

  function OwnedBy(userId: nat): TokenRow -> bool {
    (r: TokenRow) => r.userId == userId
  }

  /** The rows `DELETE FROM password_reset_tokens WHERE user_id = ?` keeps. */
  function NotOwnedBy(userId: nat): TokenRow -> bool {
    (r: TokenRow) => r.userId != userId
  }

  /** The rows `DELETE FROM password_reset_tokens WHERE token = ?` keeps. */
  function OtherToken(token: string): TokenRow -> bool {
    (r: TokenRow) => r.token != token
  }

  /** The rows owned by `userId`. */
  function RowsOf(rows: seq<TokenRow>, userId: nat): seq<TokenRow> {
    Filter(rows, OwnedBy(userId))
  }

  /** The table after `DELETE FROM password_reset_tokens WHERE user_id = ?`. */
  function WithoutUser(rows: seq<TokenRow>, userId: nat): seq<TokenRow> {
    Filter(rows, NotOwnedBy(userId))
  }

  /** The table after `DELETE FROM password_reset_tokens WHERE token = ?`. */
  function WithoutToken(rows: seq<TokenRow>, token: string): seq<TokenRow> {
    Filter(rows, OtherToken(token))
  }

  /** The table after the forgot-password route's delete-then-insert for `userId`. */
  function Issue(rows: seq<TokenRow>, userId: nat, token: string, expiresAt: int): (after: seq<TokenRow>)
    ensures |after| >= 1 && after[|after| - 1] == TokenRow(userId, token, expiresAt)
    ensures forall i :: 0 <= i < |after| - 1 ==> after[i] in rows && after[i].userId != userId
    ensures forall i :: 0 <= i < |rows| && rows[i].userId != userId ==> rows[i] in after
  {
    WithoutUser(rows, userId) + [TokenRow(userId, token, expiresAt)]
  }

  /** A row whose `expiresAt` is `now` is already expired: the comparison is strict. */
  lemma ExpiryIsStrict(rows: seq<TokenRow>, token: string, now: int)
    requires forall r :: r in rows && r.token == token ==> r.expiresAt <= now
    ensures LiveRows(rows, token, now) == []
  {
    FilterNone(rows, Live(token, now));
  }

  lemma {:induction false} RowsOfWithoutUser(rows: seq<TokenRow>, userId: nat, other: nat)
    ensures RowsOf(WithoutUser(rows, userId), other) == if other == userId then [] else RowsOf(rows, other)
  {
    if rows != [] {
      RowsOfWithoutUser(rows[1..], userId, other);
      FilterAppend(if rows[0].userId != userId then [rows[0]] else [], WithoutUser(rows[1..], userId),
                   OwnedBy(other));
    }
  }

  /** After issuing, the user owns exactly the new row. */
  lemma OneTokenPerUser(rows: seq<TokenRow>, userId: nat, token: string, expiresAt: int)
    ensures RowsOf(Issue(rows, userId, token, expiresAt), userId) == [TokenRow(userId, token, expiresAt)]
  {
    FilterAppend(WithoutUser(rows, userId), [TokenRow(userId, token, expiresAt)], OwnedBy(userId));
    RowsOfWithoutUser(rows, userId, userId);
  }

  /** Issuing for one user leaves every other user's rows as they were. */
  lemma IssueKeepsOtherUsers(rows: seq<TokenRow>, userId: nat, token: string, expiresAt: int, other: nat)
    requires other != userId
    ensures RowsOf(Issue(rows, userId, token, expiresAt), other) == RowsOf(rows, other)
  {
    FilterAppend(WithoutUser(rows, userId), [TokenRow(userId, token, expiresAt)], OwnedBy(other));
    RowsOfWithoutUser(rows, userId, other);
  }

  /**
   * A newer request supersedes an older token: if only this user's rows
   * carry `oldToken`, it stops being live once a different token is issued.
   */
  lemma IssueSupersedes(rows: seq<TokenRow>, userId: nat, token: string, expiresAt: int, oldToken: string, now: int)
    requires oldToken != token
    requires forall i :: 0 <= i < |rows| && rows[i].token == oldToken ==> rows[i].userId == userId
    ensures LiveRows(Issue(rows, userId, token, expiresAt), oldToken, now) == []
  {
    FilterNone(Issue(rows, userId, token, expiresAt), Live(oldToken, now));
  }

  /** Deleting a token's rows leaves nothing live under that token, at any time. */
  lemma ConsumedTokenIsDead(rows: seq<TokenRow>, token: string, now: int)
    ensures LiveRows(WithoutToken(rows, token), token, now) == []
  {
    FilterNone(WithoutToken(rows, token), Live(token, now));
  }

  /** Deleting one token's rows leaves every other token's liveness as it was. */
  lemma {:induction false} ConsumeKeepsOtherTokens(rows: seq<TokenRow>, token: string, other: string, now: int)
    requires other != token
    ensures LiveRows(WithoutToken(rows, token), other, now) == LiveRows(rows, other, now)
  {
    if rows != [] {
      ConsumeKeepsOtherTokens(rows[1..], token, other, now);
      FilterAppend(if rows[0].token != token then [rows[0]] else [], WithoutToken(rows[1..], token),
                   Live(other, now));
    }
  }
}
