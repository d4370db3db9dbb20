/**
 * The payment gateway's webhook: a `charge.success` event confirms the subscription whose
 * payment reference it names, once, and hands it to the referral bonus.
 */
module Webhooks {
  import opened Wrappers
  import opened Clock
  import opened UserModel
  import opened SubscriptionModel
  import opened Store
  import opened SubscriptionRoutes
  import Referral

  /** The parts of the JSON body the handler reads. A missing key is `None`; `reference` is
      `Some(None)` when the body carries `"reference": null`. */
  datatype Payload = Payload(event: Option<string>, reference: Option<Option<string>>)

  /** The reply: 200 with an empty body, or 500 when reading the body raises `KeyError`. */
  datatype Reply = Ok200 | ServerError

  const ChargeSuccess: string := "charge.success"

  /** What one delivery does. */
  function Deliver(st: State, payload: Payload, now: Time): (Reply, State) {
    if payload.event.None? then (ServerError, st)
    else if payload.event.value != ChargeSuccess then (Ok200, st)
    else if payload.reference.None? then (ServerError, st)
    else
      match ByPaymentReference(st.subscriptions, payload.reference.value)
      case None => (Ok200, st)
      case Some(k) =>
        if st.subscriptions[k].isConfirmed then (Ok200, st)
        else
          var s := st.subscriptions[k].(isConfirmed := true);
          var rs := Referral.Credit(Referral.State(st.users, st.earnings), s, now);
          (Ok200, State(st.subscriptions[k := s], rs.users, rs.earnings))
  }

  /** Only a `charge.success` event can change anything; every other event is answered 200. */
  lemma OtherEventsChangeNothing(st: State, payload: Payload, now: Time)
    requires payload.event.Some? && payload.event.value != ChargeSuccess
    ensures Deliver(st, payload, now) == (Ok200, st)
  {
  }

  /** A delivery whose reference matches no subscription, or matches one already confirmed,
      changes nothing. */
  lemma NoUnconfirmedMatchChangesNothing(st: State, payload: Payload, now: Time)
    requires payload.reference.Some?
    requires forall k :: k in st.subscriptions && st.subscriptions[k].paymentReference == payload.reference.value
               ==> st.subscriptions[k].isConfirmed
    ensures Deliver(st, payload, now).1 == st
  {
  }

  /** Confirming here sets only the flag: `paid_at` and `expires_at` are untouched, and the
      referral bonus is handled once for the confirmed row. */
  lemma ConfirmsFlagOnly(st: State, payload: Payload, now: Time)
    requires Deliver(st, payload, now).1 != st
    ensures payload.event == Some(ChargeSuccess) && payload.reference.Some?
    ensures var k := ByPaymentReference(st.subscriptions, payload.reference.value).value;
      var st2 := Deliver(st, payload, now).1;
      var s := st.subscriptions[k];
      k in st.subscriptions && !s.isConfirmed
      && st2.subscriptions == st.subscriptions[k := s.(isConfirmed := true)]
      && Referral.State(st2.users, st2.earnings)
         == Referral.Credit(Referral.State(st.users, st.earnings), s.(isConfirmed := true), now)
  {
  }

  /** A redelivered event is a no-op: the second delivery finds the subscription confirmed. */
  lemma RedeliveryIsNoOp(st: State, payload: Payload, now: Time, later: Time)
    ensures var st2 := Deliver(st, payload, now).1;
      Deliver(st2, payload, later) == (Deliver(st, payload, now).0, st2)
  {
    var st2 := Deliver(st, payload, now).1;
    if st2 != st {
      var ref := payload.reference.value;
      var k := ByPaymentReference(st.subscriptions, ref).value;
      var subs := st.subscriptions;
      var subs2 := st2.subscriptions;
      assert subs2 == subs[k := subs[k].(isConfirmed := true)];
      var r := ByPaymentReference(subs2, ref);
      assert subs2[k].paymentReference == ref;
      assert r.Some?;
      assert subs[r.value].paymentReference == ref;
      assert r.value <= k && k <= r.value;
    }
  }

  /** The lookup is by `payment_reference`, which the start route never fills in: while every
      subscription is one the start route created, no delivery naming a reference changes
      anything, paid or not. */
  lemma StartedSubscriptionsNeverMatch(st: State, payload: Payload, now: Time, ref: string)
    requires payload.reference == Some(Some(ref))
    requires forall k :: k in st.subscriptions ==> st.subscriptions[k].paymentReference.None?
    ensures Deliver(st, payload, now).1 == st
  {
  }

  /** With `"reference": null` the lookup is `payment_reference IS NULL`, so a success event
      confirms the lowest-numbered unconfirmed subscription the start route created. */
  lemma NullReferenceConfirmsAnyStarted(st: State, now: Time, k: int)
    requires k in st.subscriptions && st.subscriptions[k].paymentReference.None?
    requires forall j :: j in st.subscriptions && j < k ==> st.subscriptions[j].paymentReference.Some?
    requires !st.subscriptions[k].isConfirmed
    ensures var st2 := Deliver(st, Payload(Some(ChargeSuccess), Some(None)), now).1;
      k in st2.subscriptions && st2.subscriptions[k].isConfirmed
  {
    assert ByPaymentReference(st.subscriptions, None) == Some(k);
  }

  /** A subscription confirmed here gets no expiry, so it is never active, and the verify route
      then reports it already confirmed and does not add one. */
  lemma WebhookConfirmedNeverActive(st: State, payload: Payload, now: Time, t: Time, referenceArg: Option<string>,
                                    g: Option<Gateway>, later: Time)
    requires Deliver(st, payload, now).1 != st
    requires var k := ByPaymentReference(st.subscriptions, payload.reference.value).value;
      st.subscriptions[k].expiresAt.None?
    ensures var k := ByPaymentReference(st.subscriptions, payload.reference.value).value;
      var st2 := Deliver(st, payload, now).1;
      k in st2.subscriptions && !IsActive(st2.subscriptions[k], t)
      && (ByReference(st2.subscriptions, referenceArg.GetOr("")) == Some(k) ==>
            Verify(st2, referenceArg, g, later) == (AlreadyConfirmed, st2))
  {
  }

  /** `paystack_webhook`. */
  method PaystackWebhook(db: Db, payload: Payload, now: Time) returns (reply: Reply)
    modifies db`subscriptions, db`users, db`earnings
    ensures (reply, State(db.subscriptions, db.users, db.earnings))
            == Deliver(State(old(db.subscriptions), old(db.users), old(db.earnings)), payload, now)
  {
    if payload.event.None? {
      return ServerError;
    }
    if payload.event.value == ChargeSuccess {
      if payload.reference.None? {
        return ServerError;
      }
      var reference := payload.reference.value;
      var found := ByPaymentReference(db.subscriptions, reference);
      if found.Some? && !db.subscriptions[found.value].isConfirmed {
        var k := found.value;
        var sub := db.subscriptions[k].(isConfirmed := true);
        db.subscriptions := db.subscriptions[k := sub];
        Referral.HandleReferralBonus(db, sub, now);
      }
    }
    return Ok200;
  }
}
