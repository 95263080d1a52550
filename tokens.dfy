/** The two token kinds, kept abstract: signing and verification with HS256 are
    library code, so a token is its claims plus one flag saying whether its
    signature verifies under the application's secret. Time is integer seconds. */
module Tokens {
  import opened Identity

  /** The access token `create_access_token(identity=...)` returns; its subject
      is what `get_jwt_identity()` later yields. */
  datatype SessionToken = SessionToken(subject: Identity)

  /** Login's token for a user: the subject is `str(user.id)`. */
  function IssueSession(userId: nat): (t: SessionToken)
    ensures ToInt(t.subject) == userId
    ensures t.subject == Decimal(userId)
  {
    ToIntOfDecimal(userId);
    SessionToken(Decimal(userId))
  }

  /** `timedelta(hours=1)`, in seconds. */
  const ResetLifetime: int := 3600

  /** A password-reset token: the payload `{user_id, exp}` and whether the
      signature checks out. */
  datatype ResetToken = ResetToken(userId: nat, exp: int, signatureValid: bool)

  /** `jwt.encode({"user_id": id, "exp": now + 1 hour}, SECRET_KEY, "HS256")`. */
  function IssueReset(userId: nat, now: int): (t: ResetToken)
    ensures t.userId == userId && t.exp == now + ResetLifetime && t.signatureValid
  {
    ResetToken(userId, now + ResetLifetime, true)
  }

  /** What `jwt.decode` does with a reset token: it raises InvalidTokenError
      (here `Invalid`) when the signature fails, ExpiredSignatureError (`Expired`)
      when the token is past its `exp` claim, and otherwise returns the payload. */
  datatype Decoded = Claims(userId: nat) | Expired | Invalid

  /** The signature is checked before the claims; the token is expired unless the
      current time is strictly before `exp` (section 4.1.4 of RFC 7519). */
  function DecodeReset(t: ResetToken, now: int): (r: Decoded)
    ensures r.Invalid? <==> !t.signatureValid
    ensures r.Expired? <==> t.signatureValid && t.exp <= now
    ensures r.Claims? ==> r.userId == t.userId
  {
    if !t.signatureValid then Invalid
    else if t.exp <= now then Expired
    else Claims(t.userId)
  }

  /** A reset token issued at `issuedAt` decodes to its user for exactly one
      hour and is expired from then on: it still verifies 59 minutes later and
      is expired 61 minutes later. */
  lemma ResetTokenLifetime(userId: nat, issuedAt: int, now: int)
    ensures DecodeReset(IssueReset(userId, issuedAt), now)
            == if now < issuedAt + ResetLifetime then Claims(userId) else Expired
    ensures DecodeReset(IssueReset(userId, issuedAt), issuedAt + 59 * 60) == Claims(userId)
    ensures DecodeReset(IssueReset(userId, issuedAt), issuedAt + 61 * 60) == Expired
  {
  }
}
