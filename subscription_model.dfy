/** The `subscriptions` table: confirmation, expiry and the activity test. */
module SubscriptionModel {
  import opened Wrappers
  import opened Clock
  import opened Money
  import opened Tables

  /** A row of `subscriptions`. `paymentReference` is the column the webhook searches;
      `reference` is the one the start route fills in. */
  datatype Subscription = Subscription(
    id: int,
    userId: int,
    amount: Cents,
    currency: string,
    paymentProvider: Option<string>,
    paymentReference: Option<string>,
    isConfirmed: bool,
    paidAt: Option<Time>,
    createdAt: Time,
    expiresAt: Option<Time>,
    reference: string)

  /** The default length of a subscription, in days. */
  const DefaultDays: int := 366

  /** `confirm_payment`: confirmed, paid now; nothing else is touched. */
  function ConfirmPayment(s: Subscription, now: Time): (r: Subscription)
    ensures r.isConfirmed && r.paidAt == Some(now)
    ensures r.expiresAt == s.expiresAt && r.reference == s.reference && r.paymentReference == s.paymentReference
    ensures r.id == s.id && r.userId == s.userId && r.amount == s.amount
  {
    s.(isConfirmed := true, paidAt := Some(now))
  }

  /** `set_expiration(days)`: an existing `paid_at` is kept, a missing one becomes now, and the
      expiry is `days` days after it. */
  function SetExpiration(s: Subscription, days: int, now: Time): (r: Subscription)
    ensures s.paidAt.Some? ==> r.paidAt == s.paidAt
    ensures s.paidAt.None? ==> r.paidAt == Some(now)
    ensures r.paidAt.Some? && r.expiresAt == Some(r.paidAt.value + days * Day)
    ensures r.isConfirmed == s.isConfirmed && r.id == s.id && r.userId == s.userId
    ensures r.reference == s.reference && r.paymentReference == s.paymentReference
  {
    var paid := if s.paidAt.None? then now else s.paidAt.value;
    s.(paidAt := Some(paid), expiresAt := Some(paid + days * Day))
  }

  /** `is_active`: confirmed, with an expiry strictly after now. */
  predicate IsActive(s: Subscription, now: Time) {
    s.isConfirmed && s.expiresAt.Some? && s.expiresAt.value > now
  }

  /** Once inactive, a subscription stays inactive as time goes on. */
  lemma InactiveStaysInactive(s: Subscription, now: Time, later: Time)
    requires !IsActive(s, now) && now <= later
    ensures !IsActive(s, later)
  {
  }

  /** A confirmed subscription given an expiry is active exactly until `days` days after it
      was paid. */
  lemma ActiveUntilExpiry(s: Subscription, days: int, now: Time, t: Time)
    requires s.isConfirmed
    ensures var r := SetExpiration(s, days, now);
      IsActive(r, t) <==> t < r.paidAt.value + days * Day
  {
  }

  /** `filter_by(payment_reference=ref).first()`. */
  function ByPaymentReference(subs: map<int, Subscription>, ref: Option<string>): (r: Option<int>)
    ensures r.Some? ==> r.value in subs && subs[r.value].paymentReference == ref
    ensures r.None? ==> forall k :: k in subs ==> subs[k].paymentReference != ref
  {
    FirstKey(subs, (s: Subscription) => s.paymentReference == ref)
  }

  /** `filter_by(reference=ref).first()`. */
  function ByReference(subs: map<int, Subscription>, ref: string): (r: Option<int>)
    ensures r.Some? ==> r.value in subs && subs[r.value].reference == ref
    ensures r.None? ==> forall k :: k in subs ==> subs[k].reference != ref
  {
    FirstKey(subs, (s: Subscription) => s.reference == ref)
  }
}
