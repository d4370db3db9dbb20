/**
 * The account routes as a state machine over the user table and the browser session: sign-up
 * with a six-digit e-mail code, code confirmation and resending, log-in with a single session
 * token, log-out, and password reset by an e-mailed token.
 *
 * The request's form fields, the clock, the password hasher and checker and the random values
 * (the e-mail code, the session and reset tokens, the referral code draws) are parameters.
 * Every route reads the clock once.
 */
module AuthRoutes {
  import opened Wrappers
  import opened Clock
  import opened Text
  import opened Tables
  import opened UserModel
  import opened AppUtils
  import opened AuthUtils
  import opened Store

  /** A new e-mail code holds for ten minutes. */
  const CodeLifetime: int := 10 * Minute
  /** A code may be resent once a minute. */
  const ResendCooldown: int := 60
  /** A reset link holds for thirty minutes. */
  const ResetLifetime: int := 30 * Minute

  const RefKey := "ref"
  const VerifyEmailKey := "verify_email"
  const SessionTokenKey := "session_token"

  /** The browser session: Flask's signed cookie dictionary. */
  class Session {
    var entries: map<string, string>

    constructor (entries: map<string, string>)
      ensures this.entries == entries
    {
      this.entries := entries;
    }
  }

  /** `session.get(key)`. */
  function Get(m: map<string, string>, key: string): Option<string> {
    if key in m then Some(m[key]) else None
  }

  /** The user table and the session. */
  datatype State = State(users: map<int, User>, session: map<string, string>)

  /** How a route answers, named after its flash message or redirect. */
  datatype Reply =
    | SignedIn                  // already authenticated: to the dashboard
    | FormShown                 // GET, or a form that did not validate
    | FieldErrors(emailTaken: bool, usernameTaken: bool)  // the sign-up form's own uniqueness checks
    | Registered(id: int)
    | AccountExpired
    | BadCredentials
    | ConfirmationRequired
    | LoggedIn(id: int)
    | LoggedOut
    | NoPendingEmail
    | AccountNotFound
    | CodeRejected
    | Confirmed
    | NoFreeReferralCode        // every referral code drawn was taken
    | ResendIgnored
    | ResendTooSoon
    | CodeResent
    | ResetRequestIgnored
    | ResetLinkSent
    | ResetLinkInvalid
    | PasswordsDiffer
    | PasswordChanged
    | ServerError               // a comparison with a missing time raises `TypeError`

  /** The configured lifetime of an unverified account, in hours. */
  function ExpiryHours(configuredHours: Option<int>): int {
    configuredHours.GetOr(FallbackExpiryHours)
  }

  // ---------------------------------------------------------------------------------------
  // register

  /** The sign-up form's fields, once they pass their declared validators (`DataRequired`,
      `Email`); whether the name and the e-mail are free is checked by `RegisterFormErrors`. */
  datatype RegisterForm = RegisterForm(username: string, email: string, password: string)

  /** The `referred_by` of a sign-up: the link's `ref`, else the session's, else the default;
      and the default again when no user holds the chosen code. */
  function Referral(users: map<int, User>, queryRef: Option<string>, sessionRef: Option<string>,
                    defaultCode: Option<string>): Option<string>
  {
    var code := if Truthy(queryRef) then queryRef else sessionRef;
    var code := if Truthy(code) then code else defaultCode;
    if UserByReferralCode(users, code).Some? then code else defaultCode
  }

  /** The row `register` adds: unverified, with the code as text, expiring ten minutes on. */
  function NewUser(id: int, form: RegisterForm, passwordHash: string, code: int, referredBy: Option<string>,
                   now: Time): User
  {
    User(id, form.username, form.email, passwordHash, false, Some(IntToString(code)), None, referredBy,
         0, false, Some(now), Some(now + CodeLifetime), Some(now), now, None, None, None)
  }

  /** `RegisterForm.validate_username` and `validate_email`: each raises when a user already
      holds the value, and `validate_on_submit` runs both, so both errors can show at once. */
  function RegisterFormErrors(users: map<int, User>, f: RegisterForm): (r: Option<Reply>)
    ensures r.None? <==> UserByEmail(users, Some(f.email)).None? && UserByUsername(users, f.username).None?
    ensures r.Some? ==> r.value == FieldErrors(UserByEmail(users, Some(f.email)).Some?,
                                               UserByUsername(users, f.username).Some?)
  {
    var emailTaken := UserByEmail(users, Some(f.email)).Some?;
    var usernameTaken := UserByUsername(users, f.username).Some?;
    if emailTaken || usernameTaken then Some(FieldErrors(emailTaken, usernameTaken)) else None
  }

  /** `register`. The route's own duplicate checks after `validate_on_submit()` cannot fire,
      since the form has refused a taken value already; they are not repeated here. */
  function RegisterStep(st: State, authenticated: bool, queryRef: Option<string>, defaultCode: Option<string>,
                        form: Option<RegisterForm>, hashOf: string -> string, code: int, now: Time): (Reply, State)
  {
    if authenticated then (SignedIn, st)
    else
      var referredBy := Referral(st.users, queryRef, Get(st.session, RefKey), defaultCode);
      if form.None? then (FormShown, st)
      else
        var f := form.value;
        var errors := RegisterFormErrors(st.users, f);
        if errors.Some? then (errors.value, st)
        else
          var id := FreshKey(st.users);
          (Registered(id),
           State(st.users[id := NewUser(id, f, hashOf(f.password), code, referredBy, now)],
                 (st.session - {RefKey})[VerifyEmailKey := f.email]))
  }

  /** `register` on the database; `code` is the `randint(100000, 999999)` draw. */
  method Register(db: Db, sess: Session, authenticated: bool, queryRef: Option<string>, defaultCode: Option<string>,
                  form: Option<RegisterForm>, hashOf: string -> string, code: int, now: Time)
      returns (reply: Reply)
    requires 100000 <= code <= 999999
    modifies db`users, sess`entries
    ensures (reply, State(db.users, sess.entries))
            == RegisterStep(State(old(db.users), old(sess.entries)), authenticated, queryRef, defaultCode,
                            form, hashOf, code, now)
  {
    if authenticated {
      return SignedIn;
    }
    var referralCode := if Truthy(queryRef) then queryRef else Get(sess.entries, RefKey);
    if !Truthy(referralCode) {
      referralCode := defaultCode;
    }
    var referrer := UserByReferralCode(db.users, referralCode);
    if referrer.None? {
      referralCode := defaultCode;
    }
    if form.None? {
      return FormShown;
    }
    var f := form.value;
    var emailTaken := UserByEmail(db.users, Some(f.email)).Some?;
    var usernameTaken := UserByUsername(db.users, f.username).Some?;
    if emailTaken || usernameTaken {
      return FieldErrors(emailTaken, usernameTaken);
    }
    var id := FreshKey(db.users);
    db.users := db.users[id := NewUser(id, f, hashOf(f.password), code, referralCode, now)];
    sess.entries := sess.entries - {RefKey};
    sess.entries := sess.entries[VerifyEmailKey := f.email];
    reply := Registered(id);
  }

  // ---------------------------------------------------------------------------------------
  // login and logout

  /** The log-in form's fields, once it has validated. */
  datatype LoginForm = LoginForm(email: string, password: string)

  /** `login`; `check` is `check_password_hash` and `token` the `token_urlsafe(32)` draw. */
  function LoginStep(st: State, authenticated: bool, form: Option<LoginForm>, now: Time,
                     configuredHours: Option<int>, check: (string, string) -> bool, token: string): (Reply, State)
  {
    if authenticated then (SignedIn, st)
    else if form.None? then (FormShown, st)
    else
      var f := form.value;
      var uid := UserByEmail(st.users, Some(f.email));
      if uid.Some? && IsStale(st.users[uid.value], now, ExpiryHours(configuredHours)) then
        (AccountExpired, st.(users := st.users - {uid.value}))
      else if uid.None? || !check(st.users[uid.value].passwordHash, f.password) then (BadCredentials, st)
      else
        var u := st.users[uid.value];
        if !u.isEmailVerified then (ConfirmationRequired, st.(session := st.session[VerifyEmailKey := u.email]))
        else
          (LoggedIn(uid.value),
           State(st.users[uid.value := u.(currentSessionToken := Some(token))], st.session[SessionTokenKey := token]))
  }

  /** `login` on the database. */
  method Login(db: Db, sess: Session, authenticated: bool, form: Option<LoginForm>, now: Time,
               configuredHours: Option<int>, check: (string, string) -> bool, token: string)
      returns (reply: Reply)
    modifies db`users, sess`entries
    ensures (reply, State(db.users, sess.entries))
            == LoginStep(State(old(db.users), old(sess.entries)), authenticated, form, now, configuredHours, check, token)
  {
    if authenticated {
      return SignedIn;
    }
    if form.None? {
      return FormShown;
    }
    var f := form.value;
    var uid := UserByEmail(db.users, Some(f.email));
    if uid.Some? {
      var deleted := DeleteIfExpiredUnverified(db, uid.value, now, configuredHours);
      if deleted {
        return AccountExpired;
      }
    }
    if uid.None? || !check(db.users[uid.value].passwordHash, f.password) {
      return BadCredentials;
    }
    var user := db.users[uid.value];
    if !user.isEmailVerified {
      sess.entries := sess.entries[VerifyEmailKey := user.email];
      return ConfirmationRequired;
    }
    db.users := db.users[uid.value := user.(currentSessionToken := Some(token))];
    sess.entries := sess.entries[SessionTokenKey := token];
    reply := LoggedIn(uid.value);
  }

  /** `logout`, for the signed-in user `current` (none when anonymous). Flask-Login's own
      session keys are not modelled, and `session_token` stays in the session. */
  function LogoutStep(st: State, current: Option<int>): (Reply, State)
    requires current.Some? ==> current.value in st.users
  {
    if current.None? then (LoggedOut, st)
    else (LoggedOut, st.(users := st.users[current.value := st.users[current.value].(currentSessionToken := None)]))
  }

  /** `logout` on the database. */
  method Logout(db: Db, current: Option<int>) returns (reply: Reply)
    requires current.Some? ==> current.value in db.users
    modifies db`users
    ensures (reply, State(db.users, map[])) == LogoutStep(State(old(db.users), map[]), current)
  {
    if current.Some? {
      var user := db.users[current.value];
      db.users := db.users[current.value := user.(currentSessionToken := None)];
    }
    reply := LoggedOut;
  }

  // ---------------------------------------------------------------------------------------
  // e-mail confirmation

  /** The referral code draws `generate_unique_referral_code()` would make, in turn. */
  predicate ReferralDraws(draws: seq<seq<int>>) {
    forall i :: 0 <= i < |draws| ==> |draws[i]| == DefaultCodeLength && IsDraw(draws[i], |UpperAlnum|)
  }

  /** `confirm_email`; `form` is the submitted code, absent on a GET. */
  function ConfirmStep(st: State, now: Time, configuredHours: Option<int>, form: Option<string>,
                       draws: seq<seq<int>>): (Reply, State)
    requires ReferralDraws(draws)
  {
    var email := Get(st.session, VerifyEmailKey);
    if !Truthy(email) then (NoPendingEmail, st)
    else match UserByEmail(st.users, email)
      case None => (AccountNotFound, st)
      case Some(uid) =>
        var u := st.users[uid];
        if IsStale(u, now, ExpiryHours(configuredHours)) then
          (AccountExpired, State(st.users - {uid}, st.session - {VerifyEmailKey}))
        else if form.None? then (FormShown, st)
        else if u.emailConfirmCode != Some(form.value) then (CodeRejected, st)
        else if u.emailConfirmExpires.None? then (ServerError, st)
        else if u.emailConfirmExpires.value < now then (CodeRejected, st)
        else
          var v := u.(isEmailVerified := true, emailConfirmCode := None, emailConfirmExpires := None);
          if Truthy(u.referralCode) then (Confirmed, State(st.users[uid := v], st.session - {VerifyEmailKey}))
          else match FirstFree(st.users, AlnumCandidates(draws))
            case None => (NoFreeReferralCode, st)
            case Some(c) =>
              (Confirmed, State(st.users[uid := v.(referralCode := Some(c))], st.session - {VerifyEmailKey}))
  }

  /** `confirm_email` on the database. */
  method ConfirmEmail(db: Db, sess: Session, now: Time, configuredHours: Option<int>, form: Option<string>,
                      draws: seq<seq<int>>)
      returns (reply: Reply)
    requires ReferralDraws(draws)
    modifies db`users, sess`entries
    ensures (reply, State(db.users, sess.entries))
            == ConfirmStep(State(old(db.users), old(sess.entries)), now, configuredHours, form, draws)
  {
    var email := Get(sess.entries, VerifyEmailKey);
    if !Truthy(email) {
      return NoPendingEmail;
    }
    var uid := UserByEmail(db.users, email);
    if uid.None? {
      return AccountNotFound;
    }
    var deleted := DeleteIfExpiredUnverified(db, uid.value, now, configuredHours);
    if deleted {
      sess.entries := sess.entries - {VerifyEmailKey};
      return AccountExpired;
    }
    if form.None? {
      return FormShown;
    }
    var user := db.users[uid.value];
    if user.emailConfirmCode != Some(form.value) {
      return CodeRejected;
    }
    if user.emailConfirmExpires.None? {
      return ServerError;
    }
    if user.emailConfirmExpires.value < now {
      return CodeRejected;
    }
    var verified := user.(isEmailVerified := true, emailConfirmCode := None, emailConfirmExpires := None);
    if !Truthy(user.referralCode) {
      var code := GenerateUniqueReferralCode(db, draws, DefaultCodeLength);
      if code.None? {
        return NoFreeReferralCode;
      }
      verified := verified.(referralCode := code);
    }
    db.users := db.users[uid.value := verified];
    sess.entries := sess.entries - {VerifyEmailKey};
    reply := Confirmed;
  }

  /** `resend_confirmation`; `code` is the new `randint(100000, 999999)` draw. */
  function ResendStep(st: State, now: Time, configuredHours: Option<int>, code: int): (Reply, State) {
    var uid := UserByEmail(st.users, Get(st.session, VerifyEmailKey));
    if uid.None? || st.users[uid.value].isEmailVerified then (ResendIgnored, st)
    else
      var u := st.users[uid.value];
      if u.lastConfirmationSent.Some? && now - u.lastConfirmationSent.value < ResendCooldown then (ResendTooSoon, st)
      else if IsStale(u, now, ExpiryHours(configuredHours)) then (AccountExpired, st.(users := st.users - {uid.value}))
      else
        (CodeResent,
         st.(users := st.users[uid.value := u.(emailConfirmCode := Some(IntToString(code)),
                                               emailConfirmExpires := Some(now + CodeLifetime),
                                               lastConfirmationSent := Some(now))]))
  }

  /** `resend_confirmation` on the database. Sending the e-mail happens after the commit and
      changes no state. */
  method ResendConfirmation(db: Db, sess: Session, now: Time, configuredHours: Option<int>, code: int)
      returns (reply: Reply)
    requires 100000 <= code <= 999999
    modifies db`users
    ensures (reply, State(db.users, sess.entries))
            == ResendStep(State(old(db.users), sess.entries), now, configuredHours, code)
  {
    var uid := UserByEmail(db.users, Get(sess.entries, VerifyEmailKey));
    if uid.None? || db.users[uid.value].isEmailVerified {
      return ResendIgnored;
    }
    var user := db.users[uid.value];
    if user.lastConfirmationSent.Some? && now - user.lastConfirmationSent.value < ResendCooldown {
      return ResendTooSoon;
    }
    var deleted := DeleteIfExpiredUnverified(db, uid.value, now, configuredHours);
    if deleted {
      return AccountExpired;
    }
    user := user.(emailConfirmCode := Some(IntToString(code)));
    user := user.(emailConfirmExpires := Some(now + CodeLifetime));
    user := user.(lastConfirmationSent := Some(now));
    db.users := db.users[uid.value := user];
    reply := CodeResent;
  }

  // ---------------------------------------------------------------------------------------
  // password reset

  /** `User.query.filter_by(reset_token=token).first()`. */
  function UserByResetToken(users: map<int, User>, token: string): (r: Option<int>)
    ensures r.Some? ==> r.value in users && users[r.value].resetToken == Some(token)
    ensures r.None? ==> forall k :: k in users ==> users[k].resetToken != Some(token)
  {
    FirstKey(users, (u: User) => u.resetToken == Some(token))
  }

  /** `forgot_password`; `post` tells a POST from a GET, `email` is the form field (absent when
      missing) and `token` the `token_urlsafe(32)` draw. */
  function ForgotStep(st: State, post: bool, email: Option<string>, now: Time, token: string): (Reply, State) {
    if !post then (FormShown, st)
    else match UserByEmail(st.users, email)
      case None => (ResetRequestIgnored, st)
      case Some(uid) =>
        (ResetLinkSent,
         st.(users := st.users[uid := st.users[uid].(resetToken := Some(token),
                                                     resetTokenExpires := Some(now + ResetLifetime))]))
  }

  /** `forgot_password` on the database. */
  method ForgotPassword(db: Db, post: bool, email: Option<string>, now: Time, token: string) returns (reply: Reply)
    modifies db`users
    ensures (reply, State(db.users, map[])) == ForgotStep(State(old(db.users), map[]), post, email, now, token)
  {
    if !post {
      return FormShown;
    }
    var uid := UserByEmail(db.users, email);
    if uid.None? {
      return ResetRequestIgnored;
    }
    var user := db.users[uid.value];
    user := user.(resetToken := Some(token));
    user := user.(resetTokenExpires := Some(now + ResetLifetime));
    db.users := db.users[uid.value := user];
    reply := ResetLinkSent;
  }

  /** The reset form's two password fields. */
  datatype ResetForm = ResetForm(password: string, confirm: string)

  /** `reset_password(token)`; `form` is absent on a GET. */
  function ResetStep(st: State, token: string, now: Time, form: Option<ResetForm>, hashOf: string -> string): (Reply, State) {
    match UserByResetToken(st.users, token)
    case None => (ResetLinkInvalid, st)
    case Some(uid) =>
      var u := st.users[uid];
      if u.resetTokenExpires.None? then (ServerError, st)
      else if u.resetTokenExpires.value < now then (ResetLinkInvalid, st)
      else if form.None? then (FormShown, st)
      else if form.value.password != form.value.confirm then (PasswordsDiffer, st)
      else
        (PasswordChanged,
         st.(users := st.users[uid := u.(passwordHash := hashOf(form.value.password),
                                         resetToken := None, resetTokenExpires := None)]))
  }

  /** `reset_password(token)` on the database. */
  method ResetPassword(db: Db, token: string, now: Time, form: Option<ResetForm>, hashOf: string -> string)
      returns (reply: Reply)
    modifies db`users
    ensures (reply, State(db.users, map[])) == ResetStep(State(old(db.users), map[]), token, now, form, hashOf)
  {
    var uid := UserByResetToken(db.users, token);
    if uid.None? {
      return ResetLinkInvalid;
    }
    var user := db.users[uid.value];
    if user.resetTokenExpires.None? {
      return ServerError;
    }
    if user.resetTokenExpires.value < now {
      return ResetLinkInvalid;
    }
    if form.None? {
      return FormShown;
    }
    if form.value.password != form.value.confirm {
      return PasswordsDiffer;
    }
    user := user.(passwordHash := hashOf(form.value.password));
    user := user.(resetToken := None);
    user := user.(resetTokenExpires := None);
    db.users := db.users[uid.value := user];
    reply := PasswordChanged;
  }

  // ---------------------------------------------------------------------------------------
  // Properties of the routes

  /** The `referred_by` a sign-up records is the default or a code some user holds; a held code
      from the link wins, then a held code from the session, and an unheld one falls back to
      the default. */
  lemma ReferralSpec(users: map<int, User>, queryRef: Option<string>, sessionRef: Option<string>,
                     defaultCode: Option<string>)
    ensures var r := Referral(users, queryRef, sessionRef, defaultCode);
      (r == defaultCode || UserByReferralCode(users, r).Some?)
      && (Truthy(queryRef) && UserByReferralCode(users, queryRef).Some? ==> r == queryRef)
      && (Truthy(queryRef) && UserByReferralCode(users, queryRef).None? ==> r == defaultCode)
      && (!Truthy(queryRef) && Truthy(sessionRef) && UserByReferralCode(users, sessionRef).Some? ==> r == sessionRef)
      && (!Truthy(queryRef) && Truthy(sessionRef) && UserByReferralCode(users, sessionRef).None? ==> r == defaultCode)
  {
  }

  /** A number from 100000 to 999999 prints as six digits that read back as the number. */
  lemma SixDigitCode(code: int)
    requires 100000 <= code <= 999999
    ensures |IntToString(code)| == 6 && AllDigits(IntToString(code))
    ensures ParseInt(IntToString(code)) == Some(code)
  {
    ParseIntToString(code);
    var n1 := code / 10;
    var n2 := n1 / 10;
    var n3 := n2 / 10;
    var n4 := n3 / 10;
    var n5 := n4 / 10;
    assert 10000 <= n1 <= 99999 && 1000 <= n2 <= 9999 && 100 <= n3 <= 999 && 10 <= n4 <= 99 && 1 <= n5 <= 9;
    assert |NatToString(n5)| == 1;
    assert |NatToString(n4)| == 2;
    assert |NatToString(n3)| == 3;
    assert |NatToString(n2)| == 4;
    assert |NatToString(n1)| == 5;
  }

  /** Sign-up succeeds exactly for an anonymous visitor whose e-mail and user name are both
      free; a taken value re-shows the form with an error on each taken field, and every
      refusal leaves the state as it was. */
  lemma RegisterRefusals(st: State, authenticated: bool, queryRef: Option<string>, defaultCode: Option<string>,
                         form: Option<RegisterForm>, hashOf: string -> string, code: int, now: Time)
    ensures var (reply, st') := RegisterStep(st, authenticated, queryRef, defaultCode, form, hashOf, code, now);
      (reply.Registered? <==> !authenticated && form.Some? && UserByEmail(st.users, Some(form.value.email)).None?
                               && UserByUsername(st.users, form.value.username).None?)
      && (!reply.Registered? ==> st' == st)
      && (!authenticated && form.Some? && !reply.Registered? ==>
            reply == FieldErrors(UserByEmail(st.users, Some(form.value.email)).Some?,
                                 UserByUsername(st.users, form.value.username).Some?))
      && (reply.FieldErrors? ==> reply.emailTaken || reply.usernameTaken)
  {
  }

  /** A sign-up adds exactly one row, under a new key, and changes no other: an unverified
      account with no referral code of its own and an empty wallet, referred by `Referral`. */
  lemma RegisterAddsAccount(st: State, authenticated: bool, queryRef: Option<string>, defaultCode: Option<string>,
                            form: Option<RegisterForm>, hashOf: string -> string, code: int, now: Time)
    ensures var (reply, st') := RegisterStep(st, authenticated, queryRef, defaultCode, form, hashOf, code, now);
      reply.Registered? ==>
        var u := st'.users[reply.id];
        reply.id !in st.users && st'.users.Keys == st.users.Keys + {reply.id}
        && (forall k :: k in st.users ==> st'.users[k] == st.users[k])
        && u.id == reply.id && u.email == form.value.email && u.username == form.value.username
        && u.passwordHash == hashOf(form.value.password)
        && !u.isEmailVerified && u.referralCode.None? && u.walletBalance == 0 && !u.isAdmin
        && u.referredBy == Referral(st.users, queryRef, Get(st.session, RefKey), defaultCode)
        && u.createdAt == now
  {
  }

  /** The new account's code is the draw printed in decimal, six digits that read back as the
      draw (`SixDigitCode`), and expires ten minutes on; the session drops `ref` and remembers
      the e-mail. */
  lemma RegisterIssuesCode(st: State, authenticated: bool, queryRef: Option<string>, defaultCode: Option<string>,
                           form: Option<RegisterForm>, hashOf: string -> string, code: int, now: Time)
    ensures var (reply, st') := RegisterStep(st, authenticated, queryRef, defaultCode, form, hashOf, code, now);
      reply.Registered? ==>
        var u := st'.users[reply.id];
        u.emailConfirmCode == Some(IntToString(code))
        && u.emailConfirmExpires == Some(now + CodeLifetime) && u.lastConfirmationSent == Some(now)
        && RefKey !in st'.session && Get(st'.session, VerifyEmailKey) == Some(form.value.email)
  {
  }

  // ---------------------------------------------------------------------------------------
  // The invariant every route keeps

  /** An account's pending code has an expiry, and so does its reset token. */
  predicate Paired(u: User) {
    (u.emailConfirmCode.Some? ==> u.emailConfirmExpires.Some?)
    && (u.resetToken.Some? ==> u.resetTokenExpires.Some?)
  }

  /** No two accounts share an e-mail or a user name, and every account is `Paired`. */
  predicate Consistent(users: map<int, User>) {
    (forall j, k :: j in users && k in users && j != k
       ==> users[j].email != users[k].email && users[j].username != users[k].username)
    && (forall k :: k in users ==> Paired(users[k]))
  }

  lemma UpdateKeepsConsistent(users: map<int, User>, k: int, u: User)
    requires Consistent(users) && k in users && Paired(u)
    requires u.email == users[k].email && u.username == users[k].username
    ensures Consistent(users[k := u])
  {
  }

  lemma RemoveKeepsConsistent(users: map<int, User>, k: int)
    requires Consistent(users)
    ensures Consistent(users - {k})
  {
  }

  lemma RegisterKeepsConsistent(st: State, authenticated: bool, queryRef: Option<string>, defaultCode: Option<string>,
                                form: Option<RegisterForm>, hashOf: string -> string, code: int, now: Time)
    requires Consistent(st.users)
    ensures Consistent(RegisterStep(st, authenticated, queryRef, defaultCode, form, hashOf, code, now).1.users)
  {
    var (reply, st') := RegisterStep(st, authenticated, queryRef, defaultCode, form, hashOf, code, now);
    if reply.Registered? {
      var id := reply.id;
      var u := st'.users[id];
      assert forall k :: k in st.users ==> st.users[k].email != u.email && st.users[k].username != u.username;
    }
  }

  lemma LoginKeepsConsistent(st: State, authenticated: bool, form: Option<LoginForm>, now: Time,
                             configuredHours: Option<int>, check: (string, string) -> bool, token: string)
    requires Consistent(st.users)
    ensures Consistent(LoginStep(st, authenticated, form, now, configuredHours, check, token).1.users)
  {
    var (reply, st') := LoginStep(st, authenticated, form, now, configuredHours, check, token);
    if reply.LoggedIn? {
      var u := st.users[reply.id];
      UpdateKeepsConsistent(st.users, reply.id, u.(currentSessionToken := Some(token)));
    } else if reply == AccountExpired {
      RemoveKeepsConsistent(st.users, UserByEmail(st.users, Some(form.value.email)).value);
    }
  }

  lemma LogoutKeepsConsistent(st: State, current: Option<int>)
    requires Consistent(st.users) && (current.Some? ==> current.value in st.users)
    ensures Consistent(LogoutStep(st, current).1.users)
  {
    if current.Some? {
      var u := st.users[current.value];
      UpdateKeepsConsistent(st.users, current.value, u.(currentSessionToken := None));
    }
  }

  lemma ConfirmKeepsConsistent(st: State, now: Time, configuredHours: Option<int>, form: Option<string>,
                               draws: seq<seq<int>>)
    requires ReferralDraws(draws) && Consistent(st.users)
    ensures Consistent(ConfirmStep(st, now, configuredHours, form, draws).1.users)
  {
    var (reply, st') := ConfirmStep(st, now, configuredHours, form, draws);
    var email := Get(st.session, VerifyEmailKey);
    if reply == Confirmed || reply == AccountExpired {
      var uid := UserByEmail(st.users, email).value;
      if reply == AccountExpired {
        RemoveKeepsConsistent(st.users, uid);
      } else {
        UpdateKeepsConsistent(st.users, uid, st'.users[uid]);
      }
    }
  }

  lemma ResendKeepsConsistent(st: State, now: Time, configuredHours: Option<int>, code: int)
    requires Consistent(st.users)
    ensures Consistent(ResendStep(st, now, configuredHours, code).1.users)
  {
    var (reply, st') := ResendStep(st, now, configuredHours, code);
    var uid := UserByEmail(st.users, Get(st.session, VerifyEmailKey));
    if reply == CodeResent {
      UpdateKeepsConsistent(st.users, uid.value, st'.users[uid.value]);
    } else if reply == AccountExpired {
      RemoveKeepsConsistent(st.users, uid.value);
    }
  }

  lemma ForgotKeepsConsistent(st: State, post: bool, email: Option<string>, now: Time, token: string)
    requires Consistent(st.users)
    ensures Consistent(ForgotStep(st, post, email, now, token).1.users)
  {
    var (reply, st') := ForgotStep(st, post, email, now, token);
    if reply == ResetLinkSent {
      var uid := UserByEmail(st.users, email).value;
      UpdateKeepsConsistent(st.users, uid, st'.users[uid]);
    }
  }

  lemma ResetKeepsConsistent(st: State, token: string, now: Time, form: Option<ResetForm>, hashOf: string -> string)
    requires Consistent(st.users)
    ensures Consistent(ResetStep(st, token, now, form, hashOf).1.users)
  {
    var (reply, st') := ResetStep(st, token, now, form, hashOf);
    if reply == PasswordChanged {
      var uid := UserByResetToken(st.users, token).value;
      UpdateKeepsConsistent(st.users, uid, st'.users[uid]);
    }
  }

  /** Over consistent accounts the comparison with a missing code expiry cannot happen: a
      matching code always has its expiry. */
  lemma ConfirmNeverFails(st: State, now: Time, configuredHours: Option<int>, code: Option<string>,
                          draws: seq<seq<int>>)
    requires ReferralDraws(draws) && Consistent(st.users)
    ensures ConfirmStep(st, now, configuredHours, code, draws).0 != ServerError
  {
    var email := Get(st.session, VerifyEmailKey);
    var uid := UserByEmail(st.users, email);
    if Truthy(email) && uid.Some? {
      assert Paired(st.users[uid.value]);
    }
  }

  /** Over consistent accounts a reset token found always has its expiry. */
  lemma ResetNeverFails(st: State, token: string, now: Time, form: Option<ResetForm>, hashOf: string -> string)
    requires Consistent(st.users)
    ensures ResetStep(st, token, now, form, hashOf).0 != ServerError
  {
    var uid := UserByResetToken(st.users, token);
    if uid.Some? {
      assert Paired(st.users[uid.value]);
    }
  }

  /** Under unique e-mails, the account holding an e-mail is the one found by it. */
  lemma UserByEmailIs(users: map<int, User>, k: int)
    requires Consistent(users) && k in users
    ensures UserByEmail(users, Some(users[k].email)) == Some(k)
  {
  }

  // ---------------------------------------------------------------------------------------
  // Log-in and log-out

  /** Log-in succeeds exactly for a verified, unexpired account whose password checks; it then
      stores the new token on the account and in the session, so the two agree. An unverified
      account with the right password gets no token and is sent to confirm its e-mail. */
  lemma LoginSpec(st: State, authenticated: bool, form: Option<LoginForm>, now: Time,
                  configuredHours: Option<int>, check: (string, string) -> bool, token: string)
    ensures var (reply, st') := LoginStep(st, authenticated, form, now, configuredHours, check, token);
      var uid := if form.Some? then UserByEmail(st.users, Some(form.value.email)) else None;
      (reply.LoggedIn? <==>
         !authenticated && uid.Some? && !IsStale(st.users[uid.value], now, ExpiryHours(configuredHours))
         && check(st.users[uid.value].passwordHash, form.value.password) && st.users[uid.value].isEmailVerified)
      && (reply.LoggedIn? ==>
            reply.id == uid.value && st'.users.Keys == st.users.Keys
            && (forall k :: k in st.users && k != reply.id ==> st'.users[k] == st.users[k])
            && st'.users[reply.id] == st.users[reply.id].(currentSessionToken := Some(token))
            && st'.users[reply.id].currentSessionToken == Get(st'.session, SessionTokenKey))
      && (reply == ConfirmationRequired <==>
            !authenticated && uid.Some? && !IsStale(st.users[uid.value], now, ExpiryHours(configuredHours))
            && check(st.users[uid.value].passwordHash, form.value.password) && !st.users[uid.value].isEmailVerified)
      && (reply == ConfirmationRequired ==>
            st'.users == st.users && Get(st'.session, VerifyEmailKey) == Some(form.value.email))
      && (reply == AccountExpired ==> st'.users == st.users - {uid.value} && st'.session == st.session)
      && (!reply.LoggedIn? && reply != ConfirmationRequired && reply != AccountExpired ==> st' == st)
  {
  }

  /** Logging out after logging in clears the token the log-in stored, and only that. */
  lemma LoginThenLogout(st: State, form: Option<LoginForm>, now: Time, configuredHours: Option<int>,
                        check: (string, string) -> bool, token: string)
    requires LoginStep(st, false, form, now, configuredHours, check, token).0.LoggedIn?
    ensures var (reply, st') := LoginStep(st, false, form, now, configuredHours, check, token);
      var st'' := LogoutStep(st', Some(reply.id)).1;
      st''.users == st.users[reply.id := st.users[reply.id].(currentSessionToken := None)]
  {
    var (reply, st') := LoginStep(st, false, form, now, configuredHours, check, token);
    LoginSpec(st, false, form, now, configuredHours, check, token);
    var st'' := LogoutStep(st', Some(reply.id)).1;
    assert st''.users == st'.users[reply.id := st.users[reply.id].(currentSessionToken := None)];
  }

  // ---------------------------------------------------------------------------------------
  // Confirmation

  /** A code is accepted exactly when the pending e-mail names an unexpired account whose code
      it is and whose code has not run out, and the account keeps a referral code or a free
      one was drawn; only acceptance and expiry change the state. */
  lemma ConfirmSpec(st: State, now: Time, configuredHours: Option<int>, form: Option<string>, draws: seq<seq<int>>)
    requires ReferralDraws(draws)
    ensures var (reply, st') := ConfirmStep(st, now, configuredHours, form, draws);
      var email := Get(st.session, VerifyEmailKey);
      var uid := UserByEmail(st.users, email);
      (reply == Confirmed <==>
         Truthy(email) && uid.Some? && !IsStale(st.users[uid.value], now, ExpiryHours(configuredHours))
         && form.Some? && st.users[uid.value].emailConfirmCode == Some(form.value)
         && st.users[uid.value].emailConfirmExpires.Some? && now <= st.users[uid.value].emailConfirmExpires.value
         && (Truthy(st.users[uid.value].referralCode) || FirstFree(st.users, AlnumCandidates(draws)).Some?))
      && (reply == AccountExpired <==>
            Truthy(email) && uid.Some? && IsStale(st.users[uid.value], now, ExpiryHours(configuredHours)))
      && (reply == AccountExpired ==> st'.users == st.users - {uid.value} && VerifyEmailKey !in st'.session)
      && (reply != Confirmed && reply != AccountExpired ==> st' == st)
  {
  }

  /** An accepted code verifies the account and spends the code; the account keeps its referral
      code or is given an eight-character one nobody holds; the pending e-mail is forgotten and
      no other account changes. */
  lemma ConfirmEffect(st: State, now: Time, configuredHours: Option<int>, form: Option<string>, draws: seq<seq<int>>)
    requires ReferralDraws(draws)
    requires ConfirmStep(st, now, configuredHours, form, draws).0 == Confirmed
    ensures var st' := ConfirmStep(st, now, configuredHours, form, draws).1;
      var uid := UserByEmail(st.users, Get(st.session, VerifyEmailKey)).value;
      var u := st.users[uid];
      var v := st'.users[uid];
      st'.users.Keys == st.users.Keys
      && (forall k :: k in st.users && k != uid ==> st'.users[k] == st.users[k])
      && v == u.(isEmailVerified := true, emailConfirmCode := None, emailConfirmExpires := None,
                 referralCode := v.referralCode)
      && (Truthy(u.referralCode) ==> v.referralCode == u.referralCode)
      && (!Truthy(u.referralCode) ==>
            v.referralCode.Some? && |v.referralCode.value| == DefaultCodeLength
            && !CodeTaken(st.users, v.referralCode.value))
      && st'.session == st.session - {VerifyEmailKey}
  {
    var uid := UserByEmail(st.users, Get(st.session, VerifyEmailKey)).value;
    if !Truthy(st.users[uid].referralCode) {
      var cs := AlnumCandidates(draws);
      var c := FirstFree(st.users, cs).value;
      var i :| 0 <= i < |cs| && cs[i] == c;
      assert |Choices(UpperAlnum, draws[i])| == DefaultCodeLength;
    }
  }

  // ---------------------------------------------------------------------------------------
  // Resending the code

  /** A resend is refused within a minute of the last one; otherwise an unverified, unexpired
      account gets a new six-digit code that holds for ten minutes, and nothing else about it
      or any other account changes. */
  lemma ResendSpec(st: State, now: Time, configuredHours: Option<int>, code: int)
    requires 100000 <= code <= 999999
    ensures var (reply, st') := ResendStep(st, now, configuredHours, code);
      var uid := UserByEmail(st.users, Get(st.session, VerifyEmailKey));
      (reply == ResendTooSoon <==>
         uid.Some? && !st.users[uid.value].isEmailVerified && st.users[uid.value].lastConfirmationSent.Some?
         && now < st.users[uid.value].lastConfirmationSent.value + ResendCooldown)
      && (reply == CodeResent <==>
            uid.Some? && !st.users[uid.value].isEmailVerified
            && !(st.users[uid.value].lastConfirmationSent.Some?
                 && now < st.users[uid.value].lastConfirmationSent.value + ResendCooldown)
            && !IsStale(st.users[uid.value], now, ExpiryHours(configuredHours)))
      && (reply == CodeResent ==>
            var u := st.users[uid.value];
            var v := st'.users[uid.value];
            st'.session == st.session && st'.users.Keys == st.users.Keys
            && (forall k :: k in st.users && k != uid.value ==> st'.users[k] == st.users[k])
            && v.email == u.email && v.username == u.username && v.passwordHash == u.passwordHash
            && v.isEmailVerified == u.isEmailVerified && v.createdAt == u.createdAt
            && v.referralCode == u.referralCode && v.emailCodeSentAt == u.emailCodeSentAt
            && v.emailConfirmCode.Some? && ParseInt(v.emailConfirmCode.value) == Some(code)
            && v.emailConfirmExpires == Some(now + CodeLifetime) && v.lastConfirmationSent == Some(now))
      && (reply == AccountExpired ==> st'.users == st.users - {uid.value} && st'.session == st.session)
      && (reply != CodeResent && reply != AccountExpired ==> st' == st)
  {
    SixDigitCode(code);
  }

  /** A second resend within a minute of the first is refused. */
  lemma ResendCooldownHolds(st: State, sentAt: Time, now: Time, configuredHours: Option<int>, code: int, code2: int)
    requires Consistent(st.users)
    requires ResendStep(st, sentAt, configuredHours, code).0 == CodeResent
    requires sentAt <= now < sentAt + ResendCooldown
    ensures ResendStep(ResendStep(st, sentAt, configuredHours, code).1, now, configuredHours, code2).0 == ResendTooSoon
  {
    var st' := ResendStep(st, sentAt, configuredHours, code).1;
    var uid := UserByEmail(st.users, Get(st.session, VerifyEmailKey)).value;
    ResendKeepsConsistent(st, sentAt, configuredHours, code);
    UserByEmailIs(st'.users, uid);
  }

  /** The code a resend mails is accepted within its ten minutes, provided the account has not
      expired meanwhile (a missing referral code still needs a free draw). */
  lemma ResendThenConfirm(st: State, sentAt: Time, now: Time, configuredHours: Option<int>, code: int,
                          draws: seq<seq<int>>)
    requires Consistent(st.users) && ReferralDraws(draws)
    requires ResendStep(st, sentAt, configuredHours, code).0 == CodeResent
    requires Truthy(Get(st.session, VerifyEmailKey))
    requires sentAt <= now <= sentAt + CodeLifetime
    requires !IsStale(st.users[UserByEmail(st.users, Get(st.session, VerifyEmailKey)).value], now,
                      ExpiryHours(configuredHours))
    ensures var r := ConfirmStep(ResendStep(st, sentAt, configuredHours, code).1, now, configuredHours,
                                 Some(IntToString(code)), draws).0;
      r == Confirmed || r == NoFreeReferralCode
    ensures Truthy(st.users[UserByEmail(st.users, Get(st.session, VerifyEmailKey)).value].referralCode)
            ==> ConfirmStep(ResendStep(st, sentAt, configuredHours, code).1, now, configuredHours,
                            Some(IntToString(code)), draws).0 == Confirmed
  {
    var st' := ResendStep(st, sentAt, configuredHours, code).1;
    var uid := UserByEmail(st.users, Get(st.session, VerifyEmailKey)).value;
    ResendKeepsConsistent(st, sentAt, configuredHours, code);
    UserByEmailIs(st'.users, uid);
    assert UserByEmail(st'.users, Get(st'.session, VerifyEmailKey)) == Some(uid);
  }

  // ---------------------------------------------------------------------------------------
  // Password reset

  /** For an account holding the token with an expiry, the link is refused exactly when
      `reset_token_expired` says so; otherwise a matching pair of passwords replaces the hash
      and spends the token, and every other outcome changes nothing. */
  lemma ResetSpec(st: State, token: string, now: Time, form: Option<ResetForm>, hashOf: string -> string)
    ensures var (reply, st') := ResetStep(st, token, now, form, hashOf);
      var uid := UserByResetToken(st.users, token);
      (uid.None? ==> reply == ResetLinkInvalid)
      && (uid.Some? && st.users[uid.value].resetTokenExpires.Some? ==>
            (reply == ResetLinkInvalid <==> ResetTokenExpired(st.users[uid.value], now)))
      && (reply == PasswordChanged <==>
            uid.Some? && !ResetTokenExpired(st.users[uid.value], now) && form.Some?
            && form.value.password == form.value.confirm)
      && (reply == PasswordChanged ==>
            var v := st'.users[uid.value];
            st'.users.Keys == st.users.Keys
            && (forall k :: k in st.users && k != uid.value ==> st'.users[k] == st.users[k])
            && v.passwordHash == hashOf(form.value.password) && v.resetToken.None? && v.resetTokenExpires.None?
            && v.email == st.users[uid.value].email && v.isEmailVerified == st.users[uid.value].isEmailVerified)
      && (reply != PasswordChanged ==> st' == st)
  {
  }

  /** A token is spent by its use: when no other account held it, it no longer opens the form. */
  lemma ResetSingleUse(st: State, token: string, now: Time, form: Option<ResetForm>, hashOf: string -> string,
                       later: Time, again: Option<ResetForm>)
    requires ResetStep(st, token, now, form, hashOf).0 == PasswordChanged
    requires forall k :: k in st.users && k != UserByResetToken(st.users, token).value
                         ==> st.users[k].resetToken != Some(token)
    ensures ResetStep(ResetStep(st, token, now, form, hashOf).1, token, later, again, hashOf).0 == ResetLinkInvalid
  {
    var st' := ResetStep(st, token, now, form, hashOf).1;
    assert forall k :: k in st'.users ==> st'.users[k].resetToken != Some(token);
  }

  /** A link mailed by `forgot_password` resets the password within thirty minutes, when no
      other account holds the same token; and it works only once. */
  lemma ForgotThenReset(st: State, email: Option<string>, sentAt: Time, token: string, now: Time, password: string,
                        hashOf: string -> string, later: Time, again: Option<ResetForm>)
    requires ForgotStep(st, true, email, sentAt, token).0 == ResetLinkSent
    requires forall k :: k in st.users && k != UserByEmail(st.users, email).value ==> st.users[k].resetToken != Some(token)
    requires sentAt <= now <= sentAt + ResetLifetime
    ensures var st1 := ForgotStep(st, true, email, sentAt, token).1;
      var (r2, st2) := ResetStep(st1, token, now, Some(ResetForm(password, password)), hashOf);
      r2 == PasswordChanged
      && st2.users[UserByEmail(st.users, email).value].passwordHash == hashOf(password)
      && ResetStep(st2, token, later, again, hashOf).0 == ResetLinkInvalid
  {
    var uid := UserByEmail(st.users, email).value;
    var st1 := ForgotStep(st, true, email, sentAt, token).1;
    assert st1.users[uid].resetToken == Some(token);
    assert forall k :: k in st1.users && k != uid ==> st1.users[k].resetToken != Some(token);
    assert UserByResetToken(st1.users, token) == Some(uid);
    ResetSingleUse(st1, token, now, Some(ResetForm(password, password)), hashOf, later, again);
  }
}
