/**
 * The referral bonus paid when a subscription is confirmed: five percent of the subscription
 * amount to the user whose referral code the payer registered with, once per subscription.
 */
module Referral {
  import opened Wrappers
  import opened Clock
  import opened Money
  import opened Tables
  import opened UserModel
  import opened SubscriptionModel
  import opened Store

  /** The two tables the bonus touches. */
  datatype State = State(users: map<int, User>, earnings: map<int, ReferralEarning>)

  /** `round(amount * 0.05, 2)` in hundredths: five percent, to the nearest hundredth. Python
      rounds the binary float half to even; the model's stand-in on exact hundredths rounds
      ties away from zero. */
  function Bonus(amount: Cents): (b: Cents)
    ensures amount >= 0 ==> 0 <= b && -100 <= 2 * (amount * 5 - b * 100) < 100
  {
    RoundHalfUp(amount * 5, 100)
  }

  /** An amount that is a multiple of 0.20 gets exactly five percent. */
  lemma BonusExact(amount: Cents)
    requires amount % 20 == 0
    ensures Bonus(amount) * 20 == amount
  {
    var q := amount / 20;
    assert amount * 5 == q * 100;
    RoundHalfUpExact(q, 100);
  }

  /** Why no bonus was paid, in the order the guards apply. */
  datatype Skip = NoPayer | NotReferred | NoReferrer | SelfReferral | AlreadyEarned

  /** The guards of `handle_referral_bonus`: `Ok(referrer)` when a bonus is due. */
  function Due(st: State, sub: Subscription): (r: Result<int, Skip>)
    ensures r.Ok? ==> sub.userId in st.users && r.value in st.users && r.value != sub.userId
    ensures r.Ok? ==> Truthy(st.users[sub.userId].referredBy) && st.users[r.value].referralCode == st.users[sub.userId].referredBy
    ensures r.Ok? ==> forall k :: k in st.earnings ==> st.earnings[k].subscriptionId != sub.id
    ensures r == Err(AlreadyEarned) ==> exists k :: k in st.earnings && st.earnings[k].subscriptionId == sub.id
  {
    if sub.userId !in st.users then Err(NoPayer)
    else
      var payer := st.users[sub.userId];
      if !Truthy(payer.referredBy) then Err(NotReferred)
      else
        match UserByReferralCode(st.users, payer.referredBy)
        case None => Err(NoReferrer)
        case Some(referrer) =>
          if referrer == sub.userId then Err(SelfReferral)
          else if EarningForSubscription(st.earnings, sub.id).Some? then Err(AlreadyEarned)
          else Ok(referrer)
  }

  /** The earning row recorded for a bonus. */
  function Earning(id: int, referrer: int, sub: Subscription, now: Time): ReferralEarning {
    ReferralEarning(id, referrer, sub.userId, sub.id, Bonus(sub.amount), now)
  }

  /** What `handle_referral_bonus` does to the state. */
  function Credit(st: State, sub: Subscription, now: Time): State {
    match Due(st, sub)
    case Err(_) => st
    case Ok(referrer) =>
      var u := st.users[referrer];
      var e := FreshKey(st.earnings);
      State(st.users[referrer := u.(walletBalance := u.walletBalance + Bonus(sub.amount))],
            st.earnings[e := Earning(e, referrer, sub, now)])
  }

  /** A skipped bonus changes nothing. */
  lemma SkipChangesNothing(st: State, sub: Subscription, now: Time)
    requires Due(st, sub).Err?
    ensures Credit(st, sub, now) == st
  {
  }

  /** When a bonus is due, exactly one earning is added, carrying the referrer, the payer, the
      subscription and the bonus; the referrer's balance rises by the bonus and no other user
      changes. */
  lemma CreditEffect(st: State, sub: Subscription, now: Time)
    requires Due(st, sub).Ok?
    ensures var st2 := Credit(st, sub, now);
      var referrer := Due(st, sub).value;
      var e := FreshKey(st.earnings);
      e !in st.earnings && st2.earnings == st.earnings[e := Earning(e, referrer, sub, now)]
      && st2.earnings[e].referrerId == referrer && st2.earnings[e].referredUserId == sub.userId
      && st2.earnings[e].subscriptionId == sub.id && st2.earnings[e].amount == Bonus(sub.amount)
      && st2.users.Keys == st.users.Keys
      && st2.users[referrer].walletBalance == st.users[referrer].walletBalance + Bonus(sub.amount)
      && st2.users[referrer].(walletBalance := st.users[referrer].walletBalance) == st.users[referrer]
      && forall k :: k in st.users && k != referrer ==> st2.users[k] == st.users[k]
  {
  }

  /** A second call for the same subscription changes nothing: the earning recorded by the first
      is found by the duplicate guard. */
  lemma CreditIdempotent(st: State, sub: Subscription, now: Time, later: Time)
    ensures Credit(Credit(st, sub, now), sub, later) == Credit(st, sub, now)
  {
    var st2 := Credit(st, sub, now);
    if Due(st, sub).Ok? {
      CreditEffect(st, sub, now);
      var e := FreshKey(st.earnings);
      assert e in st2.earnings && st2.earnings[e].subscriptionId == sub.id;
      assert Due(st2, sub).Err?;
    }
  }

  /** At most one earning per subscription. */
  predicate OnePerSubscription(earnings: map<int, ReferralEarning>) {
    forall j, k :: j in earnings && k in earnings && earnings[j].subscriptionId == earnings[k].subscriptionId ==> j == k
  }

  lemma CreditKeepsOnePerSubscription(st: State, sub: Subscription, now: Time)
    requires OnePerSubscription(st.earnings)
    ensures OnePerSubscription(Credit(st, sub, now).earnings)
  {
    if Due(st, sub).Ok? {
      CreditEffect(st, sub, now);
    }
  }

  /** The state after confirming a sequence of subscriptions, in order. */
  function CreditAll(st: State, subs: seq<Subscription>, now: Time): State
    decreases |subs|
  {
    if |subs| == 0 then st else CreditAll(Credit(st, subs[0], now), subs[1..], now)
  }

  /** However many times the bonus is handled, and for whatever subscriptions, no subscription
      ever has two earnings. */
  lemma {:induction false} CreditAllKeepsOnePerSubscription(st: State, subs: seq<Subscription>, now: Time)
    requires OnePerSubscription(st.earnings)
    ensures OnePerSubscription(CreditAll(st, subs, now).earnings)
    decreases |subs|
  {
    if |subs| > 0 {
      CreditKeepsOnePerSubscription(st, subs[0], now);
      CreditAllKeepsOnePerSubscription(Credit(st, subs[0], now), subs[1..], now);
    }
  }

  /** `handle_referral_bonus`. */
  method HandleReferralBonus(db: Db, sub: Subscription, now: Time)
    modifies db`users, db`earnings
    ensures State(db.users, db.earnings) == Credit(State(old(db.users), old(db.earnings)), sub, now)
  {
    ghost var st := State(db.users, db.earnings);
    if sub.userId !in db.users {
      return;
    }
    var user := db.users[sub.userId];
    if !Truthy(user.referredBy) {
      return;
    }
    var found := UserByReferralCode(db.users, user.referredBy);
    if found.None? {
      return;
    }
    var referrerId := found.value;
    if referrerId == sub.userId {
      return;
    }
    var alreadyEarned := EarningForSubscription(db.earnings, sub.id);
    if alreadyEarned.Some? {
      return;
    }
    assert Due(st, sub) == Ok(referrerId);
    var bonus := Bonus(sub.amount);
    var id := FreshKey(db.earnings);
    var earning := ReferralEarning(id, referrerId, sub.userId, sub.id, bonus, now);
    var referrer := db.users[referrerId];
    referrer := referrer.(walletBalance := referrer.walletBalance + bonus);
    db.users := db.users[referrerId := referrer];
    db.earnings := db.earnings[id := earning];
  }
}
