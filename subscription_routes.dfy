/**
 * Starting and verifying a subscription: the active-subscription check and the new unconfirmed
 * row, then the confirmation after the payment gateway reports success, which sets the expiry
 * and pays the referral bonus.
 */
module SubscriptionRoutes {
  import opened Wrappers
  import opened Clock
  import opened Money
  import opened Tables
  import opened UserModel
  import opened SubscriptionModel
  import opened Store
  import Referral

  /** `_money(v)`: `v or 0`, quantised half-up to hundredths. */
  function ToMoney(v: Option<Ratio>): (c: Cents)
    ensures v.None? ==> c == 0
    ensures v.Some? && v.value.num == 0 ==> c == 0
    ensures v.Some? ==> var n := v.value.num * 100; var d := v.value.den as int;
      (n >= 0 ==> -d <= 2 * (n - c * d) < d) && (n < 0 ==> -d < 2 * (n - c * d) <= d)
  {
    if v.None? || v.value.num == 0 then 0 else QuantizeCents(v.value)
  }

  /** An amount that already has two decimals is kept as it is. */
  lemma ToMoneyWholeCents(x: Ratio)
    requires IsWholeCents(x)
    ensures ToMoney(Some(x)) == CentsOf(x)
  {
    QuantizeWholeCents(x);
    if x.num == 0 {
      assert CentsOf(x) == 0;
    }
  }

  /** Ties go away from zero: 0.005 quantises to 0.01, and -0.005 to -0.01. */
  lemma ToMoneyTies()
    ensures ToMoney(Some(Ratio(5, 1000))) == 1
    ensures ToMoney(Some(Ratio(-5, 1000))) == -1
  {
  }

  /** The subscription price in naira, to hundredths, from the configured amount in kobo. */
  function KoboToNaira(kobo: int): (naira: Cents)
    ensures naira == kobo
  {
    var x := Ratio(kobo, 100);
    QuantizeFromCents(kobo);
    QuantizeCents(x)
  }

  // ---------------------------------------------------------------------------
  // start_subscription

  /** The rows `filter_by(user_id=..., is_confirmed=True)` keeps. */
  predicate ConfirmedOf(s: Subscription, userId: int) {
    s.userId == userId && s.isConfirmed
  }

  /** `a` sorts strictly before `b` under `ORDER BY expires_at DESC`. Where a NULL expiry goes
      depends on the database: first under PostgreSQL (`nullsFirst`), last under SQLite. */
  predicate SortsBefore(a: Option<Time>, b: Option<Time>, nullsFirst: bool) {
    match (a, b)
    case (None, None) => false
    case (None, Some(_)) => nullsFirst
    case (Some(_), None) => !nullsFirst
    case (Some(x), Some(y)) => x > y
  }

  /** The first row of the ordered query among `keys`; rows that tie keep the lower key. */
  function LatestIn(subs: map<int, Subscription>, keys: set<int>, userId: int, nullsFirst: bool): (r: Option<int>)
    requires keys <= subs.Keys
    ensures r.None? ==> forall k :: k in keys ==> !ConfirmedOf(subs[k], userId)
    ensures r.Some? ==> r.value in keys && ConfirmedOf(subs[r.value], userId)
    ensures r.Some? ==> forall k :: k in keys && ConfirmedOf(subs[k], userId) ==>
      !SortsBefore(subs[k].expiresAt, subs[r.value].expiresAt, nullsFirst)
    decreases |keys|
  {
    if exists k :: k in keys then
      var k := Least(keys);
      var rest := LatestIn(subs, keys - {k}, userId, nullsFirst);
      if !ConfirmedOf(subs[k], userId) then rest
      else if rest.Some? && SortsBefore(subs[rest.value].expiresAt, subs[k].expiresAt, nullsFirst) then rest
      else Some(k)
    else
      None
  }

  /** The user's latest confirmed subscription, as the start route finds it. */
  function LatestConfirmed(subs: map<int, Subscription>, userId: int, nullsFirst: bool): Option<int> {
    LatestIn(subs, subs.Keys, userId, nullsFirst)
  }

  /** The start route refuses to create a subscription: the row it finds is active. */
  predicate StartBlocked(subs: map<int, Subscription>, userId: int, now: Time, nullsFirst: bool) {
    var latest := LatestConfirmed(subs, userId, nullsFirst);
    latest.Some? && IsActive(subs[latest.value], now)
  }

  /** With NULL expiries sorted last, the start route refuses exactly when the user holds some
      active subscription. */
  lemma BlockedIffSomeActive(subs: map<int, Subscription>, userId: int, now: Time)
    ensures StartBlocked(subs, userId, now, false) <==>
      exists k :: k in subs && subs[k].userId == userId && IsActive(subs[k], now)
  {
    var latest := LatestConfirmed(subs, userId, false);
    if exists k :: k in subs && subs[k].userId == userId && IsActive(subs[k], now) {
      var k :| k in subs && subs[k].userId == userId && IsActive(subs[k], now);
      assert ConfirmedOf(subs[k], userId);
      assert latest.Some?;
      assert !SortsBefore(subs[k].expiresAt, subs[latest.value].expiresAt, false);
    }
  }

  /** With NULL expiries sorted first, one confirmed subscription without an expiry hides every
      other: the start route never refuses, even when the user holds an active subscription. */
  lemma NullExpiryHidesActive(subs: map<int, Subscription>, userId: int, now: Time, k: int)
    requires k in subs && ConfirmedOf(subs[k], userId) && subs[k].expiresAt.None?
    ensures !StartBlocked(subs, userId, now, true)
  {
    var latest := LatestConfirmed(subs, userId, true);
    assert !SortsBefore(subs[k].expiresAt, subs[latest.value].expiresAt, true);
  }

  /** The row the start route creates, before the gateway is called. */
  function NewSubscription(id: int, userId: int, kobo: int, hex: string, now: Time): (s: Subscription)
    ensures s.reference == "SUB_" + hex && s.amount == kobo && !s.isConfirmed
    ensures s.paymentReference.None? && s.paidAt.None? && s.expiresAt.None?
    ensures s.id == id && s.userId == userId && s.currency == "NGN" && s.createdAt == now
  {
    Subscription(id, userId, KoboToNaira(kobo), "NGN", None, None, false, None, now, None, "SUB_" + hex)
  }

  /** `start_subscription` up to the commit; `hex` is the `uuid4().hex` drawn, `kobo` the
      configured `SUBSCRIPTION_AMOUNT`. */
  method StartSubscription(db: Db, userId: int, now: Time, hex: string, kobo: int, nullsFirst: bool)
      returns (created: Option<int>)
    modifies db`subscriptions
    ensures StartBlocked(old(db.subscriptions), userId, now, nullsFirst) ==>
      created.None? && db.subscriptions == old(db.subscriptions)
    ensures !StartBlocked(old(db.subscriptions), userId, now, nullsFirst) ==>
      var id := FreshKey(old(db.subscriptions));
      created == Some(id) && db.subscriptions == old(db.subscriptions)[id := NewSubscription(id, userId, kobo, hex, now)]
  {
    var active := LatestConfirmed(db.subscriptions, userId, nullsFirst);
    if active.Some? && IsActive(db.subscriptions[active.value], now) {
      return None;
    }
    var reference := "SUB_" + hex;
    var naira := KoboToNaira(kobo);
    var id := FreshKey(db.subscriptions);
    var sub := Subscription(id, userId, naira, "NGN", None, None, false, None, now, None, reference);
    db.subscriptions := db.subscriptions[id := sub];
    return Some(id);
  }

  // ---------------------------------------------------------------------------
  // verify_subscription

  /** The three tables the confirmation touches. */
  datatype State = State(subscriptions: map<int, Subscription>, users: map<int, User>,
                         earnings: map<int, ReferralEarning>)

  /** What the gateway's verification returns on success: the `paid_at` it reports, parsed,
      if any. A failed verification is `None`. */
  datatype Gateway = Gateway(paidAt: Option<Time>)

  datatype VerifyOutcome = InvalidReference | AlreadyConfirmed | VerificationFailed | Activated

  /** The subscription after a successful verification. */
  function Activate(s: Subscription, g: Gateway, now: Time): (r: Subscription)
    ensures r.isConfirmed && r.paidAt == Some(g.paidAt.GetOr(now))
    ensures r.expiresAt == Some(g.paidAt.GetOr(now) + DefaultDays * Day)
    ensures r.id == s.id && r.userId == s.userId && r.amount == s.amount && r.reference == s.reference
  {
    SetExpiration(s.(paidAt := Some(g.paidAt.GetOr(now)), isConfirmed := true), DefaultDays, now)
  }

  /** What one request to the verify route does. */
  function Verify(st: State, referenceArg: Option<string>, gateway: Option<Gateway>, now: Time): (VerifyOutcome, State) {
    match ByReference(st.subscriptions, referenceArg.GetOr(""))
    case None => (InvalidReference, st)
    case Some(k) =>
      var s := st.subscriptions[k];
      if s.isConfirmed then (AlreadyConfirmed, st)
      else if gateway.None? then (VerificationFailed, st)
      else
        var s2 := Activate(s, gateway.value, now);
        var rs := Referral.Credit(Referral.State(st.users, st.earnings), s2, now);
        (Activated, State(st.subscriptions[k := s2], rs.users, rs.earnings))
  }

  /** An unknown reference, a subscription already confirmed and a failed verification each
      leave every table as it was. */
  lemma VerifyRefusalsChangeNothing(st: State, referenceArg: Option<string>, gateway: Option<Gateway>, now: Time)
    ensures Verify(st, referenceArg, gateway, now).0 != Activated ==> Verify(st, referenceArg, gateway, now).1 == st
    ensures gateway.None? ==> Verify(st, referenceArg, gateway, now).1 == st
  {
  }

  /** On success the subscription found by reference is confirmed, paid when the gateway says
      (or now), expires 366 days later, and the referral bonus is handled for it once. */
  lemma VerifyActivates(st: State, referenceArg: Option<string>, g: Gateway, now: Time)
    requires Verify(st, referenceArg, Some(g), now).0 == Activated
    ensures var k := ByReference(st.subscriptions, referenceArg.GetOr("")).value;
      var st2 := Verify(st, referenceArg, Some(g), now).1;
      var s2 := st2.subscriptions[k];
      k in st.subscriptions && !st.subscriptions[k].isConfirmed && k in st2.subscriptions
      && s2.isConfirmed && s2.paidAt == Some(g.paidAt.GetOr(now))
      && s2.expiresAt == Some(g.paidAt.GetOr(now) + 366 * Day)
      && (now < g.paidAt.GetOr(now) + 366 * Day ==> IsActive(s2, now))
      && st2.subscriptions.Keys == st.subscriptions.Keys
      && (forall j :: j in st.subscriptions && j != k ==> st2.subscriptions[j] == st.subscriptions[j])
      && Referral.State(st2.users, st2.earnings) == Referral.Credit(Referral.State(st.users, st.earnings), s2, now)
  {
  }

  /** A reference lookup finds the same row after a row is rewritten with its reference kept. */
  lemma ByReferenceStable(subs: map<int, Subscription>, ref: string, k: int, s2: Subscription)
    requires ByReference(subs, ref) == Some(k) && s2.reference == subs[k].reference
    ensures ByReference(subs[k := s2], ref) == Some(k)
  {
    var subs2 := subs[k := s2];
    var r := ByReference(subs2, ref);
    assert subs2[k].reference == ref;
    assert r.Some?;
    assert subs[r.value].reference == ref;
    assert r.value <= k && k <= r.value;
  }

  /** A second visit to the verify route with the same reference finds the subscription
      confirmed and changes nothing, whatever the gateway says. */
  lemma VerifyTwice(st: State, referenceArg: Option<string>, g: Gateway, g2: Option<Gateway>, now: Time, later: Time)
    requires Verify(st, referenceArg, Some(g), now).0 == Activated
    ensures var st2 := Verify(st, referenceArg, Some(g), now).1;
      Verify(st2, referenceArg, g2, later) == (AlreadyConfirmed, st2)
  {
    var ref := referenceArg.GetOr("");
    var k := ByReference(st.subscriptions, ref).value;
    var s2 := Activate(st.subscriptions[k], g, now);
    ByReferenceStable(st.subscriptions, ref, k, s2);
  }

  /** `verify_subscription`; `gateway` is what `verify_paystack_payment` returns. */
  method VerifySubscription(db: Db, referenceArg: Option<string>, gateway: Option<Gateway>, now: Time)
      returns (outcome: VerifyOutcome)
    modifies db`subscriptions, db`users, db`earnings
    ensures (outcome, State(db.subscriptions, db.users, db.earnings))
            == Verify(State(old(db.subscriptions), old(db.users), old(db.earnings)), referenceArg, gateway, now)
  {
    var reference := referenceArg.GetOr("");
    var found := ByReference(db.subscriptions, reference);
    if found.None? {
      return InvalidReference;
    }
    var k := found.value;
    var sub := db.subscriptions[k];
    if sub.isConfirmed {
      return AlreadyConfirmed;
    }
    if gateway.None? {
      return VerificationFailed;
    }
    sub := sub.(paidAt := Some(gateway.value.paidAt.GetOr(now)));
    sub := sub.(isConfirmed := true);
    sub := SetExpiration(sub, DefaultDays, now);
    db.subscriptions := db.subscriptions[k := sub];
    Referral.HandleReferralBonus(db, sub, now);
    return Activated;
  }
}
