/** The password-reset helper. */
module AuthUtils {
  import opened Wrappers
  import opened Clock
  import opened UserModel

  /** `reset_token_expired`: no expiry counts as expired, and so does an expiry strictly
      before now. */
  function ResetTokenExpired(user: User, now: Time): (expired: bool)
  {
    user.resetTokenExpires.None? || user.resetTokenExpires.value < now
  }

  /** With no expiry the token has expired; otherwise it has expired exactly when its expiry
      lies before now, so at the expiry instant itself it still holds. */
  lemma ResetTokenExpiredSpec(user: User, now: Time)
    ensures user.resetTokenExpires.None? ==> ResetTokenExpired(user, now)
    ensures user.resetTokenExpires.Some? ==>
      (ResetTokenExpired(user, now) <==> user.resetTokenExpires.value < now)
    ensures user.resetTokenExpires == Some(now) ==> !ResetTokenExpired(user, now)
  {
  }

  /** Once expired, a token stays expired for every later instant. */
  lemma ResetTokenStaysExpired(user: User, now: Time, later: Time)
    requires now <= later && ResetTokenExpired(user, now)
    ensures ResetTokenExpired(user, later)
  {
  }
}
