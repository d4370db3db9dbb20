/** The `user` and `referral_earning` tables. */
module UserModel {
  import opened Wrappers
  import opened Clock
  import opened Money
  import opened Tables

  /** A row of `user`. `wallet_balance` is held in exact hundredths of a naira.
      `currentSessionToken` is not a column: it is the plain attribute the login and logout
      routes assign on the loaded object, kept here alongside the row. */
  datatype User = User(
    id: int,
    username: string,
    email: string,
    passwordHash: string,
    isEmailVerified: bool,
    emailConfirmCode: Option<string>,
    referralCode: Option<string>,
    referredBy: Option<string>,
    walletBalance: Cents,
    isAdmin: bool,
    emailCodeSentAt: Option<Time>,
    emailConfirmExpires: Option<Time>,
    lastConfirmationSent: Option<Time>,
    createdAt: Time,
    resetToken: Option<string>,
    resetTokenExpires: Option<Time>,
    currentSessionToken: Option<string>)

  /** A row of `referral_earning`: one bonus paid to `referrerId` for `subscriptionId`. */
  datatype ReferralEarning = ReferralEarning(
    id: int,
    referrerId: int,
    referredUserId: int,
    subscriptionId: int,
    amount: Cents,
    createdAt: Time)

  /** Python truthiness of an optional string: present and not empty. */
  predicate Truthy(s: Option<string>) {
    s.Some? && s.value != ""
  }

  /** `User.query.filter_by(referral_code=code).first()`; a `None` code matches the rows whose
      code is NULL, as SQLAlchemy's `filter_by(col=None)` does. */
  function UserByReferralCode(users: map<int, User>, code: Option<string>): (r: Option<int>)
    ensures r.Some? ==> r.value in users && users[r.value].referralCode == code
    ensures r.None? ==> forall k :: k in users ==> users[k].referralCode != code
  {
    FirstKey(users, (u: User) => u.referralCode == code)
  }

  /** `User.query.filter_by(email=email).first()`. */
  function UserByEmail(users: map<int, User>, email: Option<string>): (r: Option<int>)
    ensures r.Some? ==> r.value in users && Some(users[r.value].email) == email
    ensures r.None? ==> forall k :: k in users ==> Some(users[k].email) != email
  {
    FirstKey(users, (u: User) => Some(u.email) == email)
  }

  /** `User.query.filter_by(username=name).first()`. */
  function UserByUsername(users: map<int, User>, name: string): (r: Option<int>)
    ensures r.Some? ==> r.value in users && users[r.value].username == name
    ensures r.None? ==> forall k :: k in users ==> users[k].username != name
  {
    FirstKey(users, (u: User) => u.username == name)
  }

  /** `filter_by(subscription_id=sid).first()` on `referral_earning`. */
  function EarningForSubscription(earnings: map<int, ReferralEarning>, sid: int): (r: Option<int>)
    ensures r.Some? ==> r.value in earnings && earnings[r.value].subscriptionId == sid
    ensures r.None? ==> forall k :: k in earnings ==> earnings[k].subscriptionId != sid
  {
    FirstKey(earnings, (e: ReferralEarning) => e.subscriptionId == sid)
  }

  /** The referral codes held by users, as `filter_by(referral_code=code).first()` sees them. */
  predicate CodeTaken(users: map<int, User>, code: string) {
    exists k :: k in users && users[k].referralCode == Some(code)
  }
}
