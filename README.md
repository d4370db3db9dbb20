# fostech core rules in Dafny

This project models the sequential rules of fostech, a Flask site that sells yearly subscriptions to a
question bank of public-service promotion exams, runs trial and timed exam sessions over that bank,
pays referrers a share of each confirmed subscription, and lets users withdraw their wallet.

The routing, templates, ORM and external gateways are left aside. The model keeps the rules they
wrap:

- the operator's withdrawal status machine, the withdrawable balance and the fee/net split;
- referral crediting, the webhook and verify-route confirmation of subscriptions, and subscription
  expiry;
- the level-to-band map, the wrap-around question selector, the question-id CSV, the answer upsert,
  the page clamp, the exam auto-submit and the scoring loop;
- the CSV question importer;
- the account state machine for registration, confirmation, resend, login, logout and password reset;
- the small string and configuration helpers, the bank-list filter and sort, and the question-id
  tool.

Conventions:

- Money is integer hundredths of a naira (`Money.Cents`). Decimal factors are exact rationals
  (`Money.Ratio`), and `ROUND_HALF_UP` is `Money.RoundHalfUp`.
- Time is integer seconds (`Clock.Time`). A request reads the clock once, and that reading is the
  `now` parameter.
- Database tables are maps keyed by id, held as fields of one `Store.Db` object. Handlers that
  update rows in place are methods on it.
- Each such method is proved equal to a pure step function. The lemmas state the properties about
  that step function.
- Random draws, tokens and gateway answers are parameters:
  - a 6-digit code is an integer;
  - a referral-code retry loop is given the sequence of draws it would make;
  - the gateway's verify result is an `Option`.

## Model

| member | source | states |
|---|---|---|
| WithdrawalModel.NewRequest | app/models/withdrawal.py:26-38 | a new request is `pending`, so it is pending and not final; it carries the given owner, amount and creation time, with no note and no `processed_at` |
| WithdrawalModel.IsFinalCases | app/models/withdrawal.py:54-56 | `is_final` holds exactly for paid, rejected and failed |
| WithdrawalModel.PendingNotFinal | app/models/withdrawal.py:50-56 | no request is both pending and final |
| Wallet.PendingSumRemove | app/services/wallet.py:7-12 | the held sum splits into one request's hold plus the sum over the others |
| Wallet.PendingSumInsert | app/services/wallet.py:7-12 | adding a request adds exactly its hold to the sum |
| Wallet.PendingSumReplace | app/services/wallet.py:7-12 | replacing one request changes the sum by the difference of the two holds |
| Wallet.NoOpenRequestsNoHold | app/services/wallet.py:8 | when no request holds anything for the user, the coalesced sum is 0 |
| Wallet.NoOpenRequestsWholeBalance | app/services/wallet.py:8-14 | with no pending, approved or processing request of the user, the withdrawable balance is the whole balance; other users' requests and final requests do not count |
| Wallet.PendingSumNonNegative | app/services/wallet.py:7-12 | with non-negative amounts the held sum is non-negative |
| Wallet.WithdrawableAtMostBalance | app/services/wallet.py:7-14 | with non-negative amounts the withdrawable balance never exceeds the balance |
| Wallet.NewRequestEffect | app/services/wallet.py:10-14 | a new open request of the user lowers the result by exactly its amount; a request of another user or in a final status leaves it unchanged |
| Wallet.LeastAfterRemove | app/services/wallet.py:7-12 | the least request id stays least when another is removed, which fixes the order the sum is taken in |
| Fees.RawFee | app/services/fees.py:11 | amount × pct in hundredths, rounded half-up: the result is within half a cent, and ties go away from zero |
| Fees.CalcWithdrawalFee | app/services/fees.py:6-21 | without a ceiling the fee is at least the floor and at least the rounded fee; with a ceiling it never exceeds it; the fee is always the rounded fee, the floor or the ceiling; with floor ≤ ceiling, a rounded fee above the ceiling gives the ceiling and one below the floor gives the floor; net is amount − fee rounded half-up to cents |
| Fees.NetScale | app/services/fees.py:20 | quantising amount − fee to cents is the half-up rounding of the scaled difference |
| Fees.NetIsNearest | app/services/fees.py:20 | net is within half a cent of amount − fee |
| Fees.FeeUnclampedIsRaw | app/services/fees.py:11-18 | when the rounded fee lies between floor and ceiling, it is the fee |
| Fees.FeeAtLeastFloor | app/services/fees.py:13-18 | with floor ≤ ceiling the fee is at least the floor |
| Fees.CeilingWins | app/services/fees.py:13-18 | the ceiling is applied after the floor, so it wins when the floor exceeds it |
| Fees.FeePlusNet | app/services/fees.py:20-21 | for an amount in whole cents, fee + net equals the amount exactly |
| Fees.DefaultExample | app/services/fees.py:10-21 | with 10 %, no floor and no ceiling, 1000.00 splits into 100.00 and 900.00 |
| Fees.NetCanBeNegative | app/services/fees.py:13-21 | a floor above the amount gives a negative net, and the function still returns |
| AdminWithdrawals.NormNote | app/admin/withdrawals.py:37 | the note is the stripped field; a blank or missing field becomes `None`, and a stored note has no surrounding space |
| AdminWithdrawals.CheckAcceptsExactlyTable | app/admin/withdrawals.py:39-59 | a transition is accepted exactly when (lower-cased current, target) is one of the seven table pairs |
| AdminWithdrawals.UnknownTargetRefused | app/admin/withdrawals.py:39-42 | a target outside the six statuses is refused as invalid |
| AdminWithdrawals.FinalRefused | app/admin/withdrawals.py:44-49 | a request whose lower-cased status is paid, rejected or failed is refused; for a known target the refusal is "already final" |
| AdminWithdrawals.IsFinalRefused | app/admin/withdrawals.py:47-49 | a request for which `is_final` holds is refused for every target |
| AdminWithdrawals.NoSelfLoopNoLateReject | app/admin/withdrawals.py:52-59 | no status may move to itself, and processing → rejected is refused |
| AdminWithdrawals.AppliedCarriesTarget | app/admin/withdrawals.py:74-88 | the updated request carries the target and the note; paid, failed and rejected stamp `processed_at` with now; approved and processing stamp it only when it was empty; amount and owner are kept |
| AdminWithdrawals.RefundExact | app/admin/withdrawals.py:72 | the refund adds exactly the amount, with a missing amount counting as 0, and changes nothing else about the user |
| AdminWithdrawals.UpdateAsWritten | app/admin/withdrawals.py:61-102 | as the program stands, a rejection is never stored: the nested `db.session.begin()` (or the float-plus-`Decimal` refund) raises, and the rollback leaves the state unchanged; every other target is `Update` |
| AdminWithdrawals.RejectFailsAsWritten | app/admin/withdrawals.py:63-76 | for a request the table lets the operator reject, the intended handler refunds the owner by the amount, while the program as written reports the failure and changes nothing |
| AdminWithdrawals.RefusedChangesNothing | app/admin/withdrawals.py:40-59 | a refused update leaves every request and every wallet unchanged |
| AdminWithdrawals.AcceptedFollowsTable | app/admin/withdrawals.py:52-88 | after an accepted update the request's status is the target, the pair was in the table, and every other request is unchanged |
| AdminWithdrawals.WalletEffects | app/admin/withdrawals.py:63-88 | a rejection raises the owner's balance by the amount and leaves every other user unchanged; any other accepted target leaves all users unchanged |
| AdminWithdrawals.FinalUnchanged | app/admin/withdrawals.py:44-49 | a call on a final request is refused and the whole state is unchanged |
| AdminWithdrawals.RejectRaisesWithdrawableTwice | app/admin/withdrawals.py:63-76 | rejecting an open request both refunds the amount and releases its hold, so the owner's withdrawable balance rises by twice the amount |
| AdminWithdrawals.SettleReleasesHold | app/admin/withdrawals.py:82-86 | moving an open request to paid or failed changes no wallet and lowers the owner's held sum by its amount |
| AdminWithdrawals.FinalStaysFinal | app/admin/withdrawals.py:47-49 | a final request is unchanged by any sequence of later calls |
| AdminWithdrawals.CheckTransition | app/admin/withdrawals.py:39-59 | runs the three checks in the source's order and returns the refusal the pure check gives |
| AdminWithdrawals.UpdateWithdrawalStatus | app/admin/withdrawals.py:33-102 | the handler: an unknown id is not found; otherwise the outcome and the new requests and users are those of the pure update on the normalised status and note |
| AdminWithdrawals.ApplyUpdate | app/admin/withdrawals.py:61-102 | an accepted update, applied field by field in place, ends in the outcome and state of the pure update |
| Money.RoundHalfUp | app/services/fees.py:11 | `ROUND_HALF_UP` to an integer: the result is within half a unit of n/d, and a tie goes away from zero |
| Money.RoundHalfUpUnique | app/services/fees.py:11 | those bounds determine the rounded value, so any integer within them is it |
| Money.RoundHalfUpScale | app/services/fees.py:11 | scaling numerator and denominator by the same factor does not change the rounding |
| Money.RoundHalfUpExact | app/services/fees.py:20 | an exact multiple rounds to itself |
| Money.QuantizeWholeCents | app/services/fees.py:20 | quantising a value that already has two decimals keeps it |
| Money.QuantizeFromCents | app/subscriptions/routes.py:42 | a whole number of hundredths read as a decimal has two decimals and quantises to itself |
| Referral.Bonus | app/services/referral.py:40 | the bonus is 5 % of the amount to the nearest hundredth, and it is non-negative for a non-negative amount |
| Referral.BonusExact | app/services/referral.py:40 | when 5 % of the amount is a whole number of hundredths, the bonus is exactly that |
| Referral.Due | app/services/referral.py:14-37 | a bonus is due only when the payer exists, has a truthy `referred_by`, that code names another user, and no earning exists for the subscription; an "already earned" skip means such an earning exists |
| Referral.SkipChangesNothing | app/services/referral.py:14-37 | each guard that returns early leaves users and earnings unchanged |
| Referral.CreditEffect | app/services/referral.py:40-54 | exactly one earning is added, under a fresh id, carrying referrer, payer, subscription and bonus; the referrer's balance rises by the bonus, nothing else about the referrer changes, and every other user is unchanged |
| Referral.CreditIdempotent | app/services/referral.py:32-37 | a second call for the same subscription, at any later time, is a no-op |
| Referral.CreditKeepsOnePerSubscription | app/services/referral.py:32-54 | if every subscription has at most one earning before a call, it still has at most one after |
| Referral.CreditAllKeepsOnePerSubscription | app/services/referral.py:32-54 | the same holds after any sequence of calls |
| Referral.HandleReferralBonus | app/services/referral.py:7-54 | the handler, run in place, leaves users and earnings as the pure credit step does |
| UserModel.UserByReferralCode | app/services/referral.py:23 | the lookup by `referral_code` finds a user holding the code, or reports that no user holds it |
| UserModel.UserByEmail | app/auth/routes.py:37 | the lookup by email finds a user with that email, or reports that none has it |
| UserModel.UserByUsername | app/auth/routes.py:42 | the lookup by username finds a user with that name, or reports that none has it |
| UserModel.EarningForSubscription | app/services/referral.py:32-34 | the lookup finds an earning for the subscription, or reports that none exists |
| AppUtils.HexDigit | app/utils.py:21 | a nibble becomes an upper-case hexadecimal digit |
| AppUtils.Choices | app/utils.py:10 | `random.choices` over an alphabet, given the drawn indices: one character of the alphabet per draw |
| AppUtils.GenerateCode | app/utils.py:9-10 | the code is six decimal digits |
| AppUtils.EveryCodeDrawn | app/utils.py:9-10 | every six-digit string is the code of some draw |
| AppUtils.CodeIsExpired | app/utils.py:12-16 | a missing send time counts as expired; otherwise the code is expired exactly when more than `minutes` × 60 seconds have passed |
| AppUtils.CodeStaysExpired | app/utils.py:12-16 | an expired code stays expired at every later time |
| AppUtils.CodeValidAtBoundary | app/utils.py:16 | the comparison is strict: exactly `minutes` after sending the code is still valid, and one second later it is expired |
| AppUtils.HexUpper | app/utils.py:21 | `token_hex(...).upper()`: two upper-case hexadecimal digits per byte |
| AppUtils.HexValue | app/utils.py:21 | a hexadecimal digit has a value below 16 |
| AppUtils.HexPair | app/utils.py:21 | the two digits of a byte read back as that byte |
| AppUtils.ParseHexSnoc | app/utils.py:21 | reading hex digits pair by pair distributes over appending a pair |
| AppUtils.HexRoundTrip | app/utils.py:21 | reading back the upper-case hex of any byte string gives the bytes, so distinct tokens give distinct codes |
| AppUtils.FirstFree | app/utils.py:20-23 | the retry loop's result is some candidate that no user holds; when there is none, every candidate was taken |
| AppUtils.LookupFindsTaken | app/utils.py:22 | the existence query finds a user exactly when the code is taken |
| AppUtils.HexCandidates | app/utils.py:21 | the candidate codes are the upper-case hex of the tokens, in order |
| AppUtils.AlnumCandidates | app/utils.py:57-60 | the candidate codes are the draws over A–Z and 0–9, in order |
| AppUtils.GenerateReferralCode | app/utils.py:19-23 | the loop returns the first free candidate; a returned code has eight upper-case hex digits and is held by no user |
| AppUtils.GenerateUniqueReferralCode | app/utils.py:56-62 | the loop returns the first free candidate; a returned code has the requested length, uses only A–Z and 0–9, and is held by no user |
| AppUtils.RewardRecipient | app/utils.py:26-36 | a recipient exists only for a user with a truthy `referred_by` naming another user who holds that code; otherwise one of the three early returns applies |
| AppUtils.ApplyReferralReward | app/utils.py:26-39 | the routine, run in place, leaves users as the pure reward step does |
| AppUtils.RewardEffect | app/utils.py:26-39 | with no recipient nothing changes; otherwise only the recipient's balance changes, by exactly the bonus |
| AppUtils.RecipientStable | app/utils.py:26-39 | crediting does not change who the recipient is |
| AppUtils.RewardTwice | app/utils.py:38 | there is no duplicate guard: two calls credit the recipient twice |
| AppUtils.DeleteIfExpiredUnverified | app/utils.py:42-54 | returns whether the user is unverified and past `created_at` + expiry hours (6 when unconfigured); exactly then the user is deleted, and otherwise users are unchanged |
| AppUtils.StaleProperties | app/utils.py:43-49 | a verified user is never stale; at exactly the expiry time a user is not yet stale; a stale user stays stale later |
| SubscriptionModel.ConfirmPayment | app/models/subscription.py:31-33 | confirmed, `paid_at` set to now, every other field kept |
| SubscriptionModel.SetExpiration | app/models/subscription.py:34-38 | an existing `paid_at` is kept and a missing one becomes now; `expires_at` is `paid_at` + days; the other fields are kept |
| SubscriptionModel.InactiveStaysInactive | app/models/subscription.py:41-47 | once inactive at some time, a subscription is inactive at every later time |
| SubscriptionModel.ActiveUntilExpiry | app/models/subscription.py:34-47 | a confirmed subscription after `set_expiration` is active at t exactly when t is before `paid_at` + days |
| SubscriptionModel.ByPaymentReference | app/payments/webhooks.py:19-21 | the lookup by `payment_reference` finds a row with that value, or reports that none has it |
| SubscriptionModel.ByReference | app/subscriptions/routes.py:84 | the lookup by `reference` finds a row with that value, or reports that none has it |
| SubscriptionRoutes.ToMoney | app/subscriptions/routes.py:19-20 | `None` or 0 gives 0.00; otherwise the value rounded half-up to hundredths: within half a cent, with ties away from zero |
| SubscriptionRoutes.ToMoneyTies | app/subscriptions/routes.py:20 | 0.005 becomes 0.01 and -0.005 becomes -0.01 |
| SubscriptionRoutes.ToMoneyWholeCents | app/subscriptions/routes.py:19-20 | a value that already has two decimals is kept exactly |
| SubscriptionRoutes.KoboToNaira | app/subscriptions/routes.py:41-42 | kobo / 100 at two places is exact for integer kobo: the naira amount in hundredths equals the kobo amount |
| SubscriptionRoutes.LatestIn | app/subscriptions/routes.py:26-31 | the first row of the user's confirmed subscriptions ordered by `expires_at` descending: no confirmed row of the user sorts before it, and none is found only when the user has no confirmed row |
| SubscriptionRoutes.BlockedIffSomeActive | app/subscriptions/routes.py:26-37 | with NULL expiries sorted last, the start route refuses exactly when the user holds some active subscription |
| SubscriptionRoutes.NullExpiryHidesActive | app/subscriptions/routes.py:26-32 | with NULL expiries sorted first, a confirmed row without expiry hides any active one, and the start route goes ahead |
| SubscriptionRoutes.NewSubscription | app/subscriptions/routes.py:39-49 | the new row is unconfirmed, its reference is "SUB_" followed by the hex, its amount is the naira value, and `payment_reference`, `paid_at` and `expires_at` are empty |
| SubscriptionRoutes.StartSubscription | app/subscriptions/routes.py:23-51 | when blocked, nothing is created; otherwise exactly one new row is added, under a fresh id |
| SubscriptionRoutes.Activate | app/subscriptions/routes.py:99-106 | the verified row is confirmed, `paid_at` is the gateway's time or now, and `expires_at` is 366 days later; id, owner, amount and reference are kept |
| SubscriptionRoutes.VerifyRefusalsChangeNothing | app/subscriptions/routes.py:84-97 | an unknown reference, an already confirmed row or a failed gateway check all leave every table unchanged, with no referral credit |
| SubscriptionRoutes.VerifyActivates | app/subscriptions/routes.py:99-110 | on success the found row was unconfirmed and is confirmed with the gateway's or the current `paid_at` and an expiry 366 days later; it is active before then; other rows are unchanged; then the referral credit step runs once |
| SubscriptionRoutes.ByReferenceStable | app/subscriptions/routes.py:84 | updating the found row without changing its reference keeps the lookup's answer |
| SubscriptionRoutes.VerifyTwice | app/subscriptions/routes.py:89-92 | verifying again after a success reports "already confirmed" and changes nothing |
| SubscriptionRoutes.VerifySubscription | app/subscriptions/routes.py:79-113 | the route, run in place, gives the outcome and tables of the pure verify step |
| Webhooks.OtherEventsChangeNothing | app/payments/webhooks.py:16 | an event other than `charge.success` is answered 200 and changes nothing |
| Webhooks.NoUnconfirmedMatchChangesNothing | app/payments/webhooks.py:17-23 | when no unconfirmed subscription has the payload's `payment_reference`, nothing changes |
| Webhooks.ConfirmsFlagOnly | app/payments/webhooks.py:16-29 | any change comes from `charge.success` with a reference: the matched row was unconfirmed, only its flag is set, `paid_at` and `expires_at` are kept, and the referral credit step runs once |
| Webhooks.RedeliveryIsNoOp | app/payments/webhooks.py:23 | delivering the same payload again gives the same reply and changes nothing |
| Webhooks.StartedSubscriptionsNeverMatch | app/payments/webhooks.py:19-21 | rows made by the start route have no `payment_reference`, so a payload with a real reference never confirms them |
| Webhooks.NullReferenceConfirmsAnyStarted | app/payments/webhooks.py:17-25 | a payload whose reference is JSON null matches the first row without `payment_reference` and confirms it |
| Webhooks.WebhookConfirmedNeverActive | app/payments/webhooks.py:23-25 | a row the webhook confirms without an expiry is never active, and the verify route then refuses it as already confirmed |
| Webhooks.PaystackWebhook | app/payments/webhooks.py:12-31 | the handler, run in place, gives the reply and tables of the pure delivery step; a missing key in the payload is a server error |
| Difficulty.BandOfLevel | app/services/difficulty.py:10-23 | a positive level has a band among the six numeric bands; a level ≤ 0 has none |
| Difficulty.LevelToBand | app/services/difficulty.py:1-23 | every success is one of the seven band strings, and the result is "confirmation" exactly for the aliases "confirmation", "confirm" and "c" after `strip().lower()` |
| Difficulty.NumericInput | app/services/difficulty.py:8-23 | any other input that `int()` refuses (it reads an optional sign and decimal digits with single `_` separators) fails as not an integer; an integer ≤ 0 fails as an invalid level; a positive one gets its band |
| Difficulty.NotAlias | app/services/difficulty.py:5 | a string that does not start with 'c' is not a confirmation alias |
| Difficulty.PrintedLevel | app/services/difficulty.py:2-23 | the printed form of an integer maps to that integer's band, or fails as invalid when it is ≤ 0 |
| Difficulty.PrintedLevels | app/services/difficulty.py:10-23 | 1–4 give "l1-4", 5–7 "l5-7" and 8–10 "l8-10"; 11–14 give "l12-14", so 11 is in that band; 15–16 give "l15-16", 17 and above "l17", and ≤ 0 is invalid |
| Difficulty.BandRanges | app/services/difficulty.py:10-23 | the same seven ranges, stated for any result known to be the band of n |
| QuestionSelector.ByKeyIsPreorder | app/services/question_selector.py:12 | ordering by `rand_key` is a total preorder |
| QuestionSelector.Limit | app/services/question_selector.py:13 | `.limit(n)` keeps the first min(n, length) rows |
| QuestionSelector.LimitSmallest | app/services/question_selector.py:12-13 | in a list ordered by key, the kept rows have keys no larger than any dropped row |
| QuestionSelector.SliceFacts | app/services/question_selector.py:10-15 | a filtered, ordered, limited slice has min(n, matches) rows, all from the base and passing the filter, in key order, and no smaller key was left out |
| QuestionSelector.SliceDistinct | app/services/question_selector.py:10-15 | a slice of a list of distinct questions holds no question twice |
| QuestionSelector.SplitCount | app/services/question_selector.py:11-23 | every question's key is either ≥ t or < t, never both |
| QuestionSelector.PickLength | app/services/question_selector.py:5-29 | the result has min(limit, number of questions of the band and type) rows |
| QuestionSelector.PickMatches | app/services/question_selector.py:8 | every returned question is one of the table's, of the requested band and type |
| QuestionSelector.PickHalves | app/services/question_selector.py:10-29 | the result is the first slice, followed by the wrap-around slice only when the first is short |
| QuestionSelector.OrderOfHalves | app/services/question_selector.py:12-29 | in the concatenation, the keys ≥ t come first and those < t after, each part in ascending order |
| QuestionSelector.PickOrder | app/services/question_selector.py:12-29 | the result splits at some point into keys ≥ t in ascending order followed by keys < t in ascending order |
| QuestionSelector.DistinctHalves | app/services/question_selector.py:11-23 | the two slices are disjoint, so their concatenation repeats no question |
| QuestionSelector.PickDistinct | app/services/question_selector.py:5-29 | no question appears twice in the result |
| QuestionSelector.PickSmallestAbove | app/services/question_selector.py:10-18 | when at least `limit` matches have key ≥ t, the result is `limit` of them, with no smaller key ≥ t left out |
| QuestionSelector.FirstSliceWhole | app/services/question_selector.py:10-17 | when fewer than `limit` matches have key ≥ t, the first slice holds all of them |
| QuestionSelector.PickWraps | app/services/question_selector.py:17-29 | then the result starts with all keys ≥ t, and the rest are the smallest keys below t |
| QuestionSelector.WrapTail | app/services/question_selector.py:20-29 | appending the second slice keeps the first slice as the prefix, and the tail holds the smallest keys below t |
| QuizModel.Printed | app/quiz/routes.py:264 | `str(q.id)` for every selected id, in order |
| QuizModel.ParsePieces | app/models/quiz.py:73 | the comprehension keeps at most one id per piece |
| QuizModel.GetQuestionIds | app/models/quiz.py:72-73 | the ids are no more than the comma-separated pieces |
| QuizModel.GetQuestionIdsEmpty | app/models/quiz.py:73 | an empty string gives the empty list |
| QuizModel.PrintedHasNoComma | app/quiz/routes.py:264 | a printed integer holds no comma |
| QuizModel.PrintedNotBlank | app/models/quiz.py:73 | a printed integer is never blank after `strip` |
| QuizModel.ParsePiecesCons | app/models/quiz.py:73 | a non-blank integer piece puts its value in front of the rest's |
| QuizModel.ParsePrinted | app/models/quiz.py:73 | parsing the printed pieces of any id list gives the list back |
| QuizModel.CsvRoundTrip | app/quiz/routes.py:264 | reading back the comma join of any id list with `get_question_ids` gives the list unchanged |
| QuizRoutes.AnswerFor | app/quiz/routes.py:139 | the lookup finds an answer of the session for the question, or reports that none exists |
| QuizRoutes.SaveKeepsOnePerPair | app/quiz/routes.py:139-147 | the upsert keeps at most one answer per (session, question) |
| QuizRoutes.SaveAnswerEffect | app/quiz/routes.py:139-147 | afterwards an answer of the pair holds the choice; at most one row is added, under a fresh id; other pairs' answers are unchanged |
| QuizRoutes.SaveAnswerTwice | app/quiz/routes.py:139-147 | saving the same choice twice is saving it once |
| QuizRoutes.SaveAnswerRow | app/quiz/routes.py:139-147 | the upsert, run in place, leaves the answers as the pure step does |
| QuizRoutes.Autosave | app/quiz/routes.py:119-150 | refusals change nothing; the save happens exactly when the caller owns the unsubmitted session, `choice_id` is truthy, `int()` reads it and the choice it names belongs to the question; a falsy `choice_id` is reported missing; one `int()` cannot read (an array, an object, a non-numeric string) is a server error |
| QuizRoutes.JsonInt | app/quiz/routes.py:134 | `int()` of a JSON number is itself, of a string is the string parsed, and of `null`, an array or an object raises |
| QuizRoutes.ZeroStringIsLookedUp | app/quiz/routes.py:131-136 | the string "0" is truthy, so it is looked up as choice 0 and refused as invalid, not as missing |
| QuizRoutes.AutosaveRecords | app/quiz/routes.py:139-150 | a save keeps one answer per pair, records the choice, and touches neither sessions nor choices |
| QuizRoutes.AutosaveAnswer | app/quiz/routes.py:117-150 | the route, run in place, gives the reply and answers of the pure step |
| QuizRoutes.StartBandIsLevelToBand | app/quiz/routes.py:225-232 | the "confirmation" shortcut gives the same band as `level_to_band` |
| QuizRoutes.IdsOf | app/quiz/routes.py:264 | the ids of the selected questions, in order |
| QuizRoutes.StartAsWritten | app/services/question_selector.py:11 | as the program stands, a subscriber never starts an attempt: once the type and level are accepted, the missing `rand_key` attribute fails the request and nothing is stored; for everyone else it is `Start` |
| QuizRoutes.SubscriberStartFails | app/quiz/routes.py:232-238 | with at least 70 questions of the band and type, the intended route starts an exam while the program as written fails with no change |
| QuizRoutes.StartEffect | app/quiz/routes.py:212-271 | a refused start changes nothing; a started one adds one session under a fresh id for the user, unsubmitted and unscored, with `total_questions` the needed count (70 for subscribers, 10 otherwise), the selected ids readable back from its CSV in order, and either exam mode expiring 40 minutes later or trial mode with no expiry |
| QuizRoutes.ExamStartsIffEnough | app/quiz/routes.py:234-244 | for a subscriber an exam starts exactly when the band and type hold at least 70 questions |
| QuizRoutes.TrialSelection | app/quiz/routes.py:178-186 | a trial drawn from any reordering of the table holds min(10, matches) questions, each a row of the table with the band and type, and no row more often than it occurs |
| QuizRoutes.TrialStartsIffEnough | app/quiz/routes.py:250-255 | for a non-subscriber a trial starts exactly when the band and type hold at least 10 questions, whatever the random order |
| QuizRoutes.StartQuiz | app/quiz/routes.py:212-271 | given the table in a random order, the route, run in place, gives the outcome and sessions of the pure step, with the subscription check at now |
| QuizRoutes.ClampInRange | app/quiz/routes.py:296-299 | for a non-empty id list the page is in [1, len], a valid page is kept, and out-of-range pages go to the nearer end |
| QuizRoutes.QuestionById | app/quiz/routes.py:300 | the lookup finds a question with the id, or reports that none has it |
| QuizRoutes.ReadInt | app/quiz/routes.py:303-309 | a missing or empty field is blank, and a number is what `int()` reads, `_` separators included |
| QuizRoutes.SubmittedNeverRetaken | app/quiz/routes.py:284-286 | a submitted session sends its owner to the result and changes nothing |
| QuizRoutes.ExpiredExamIsSubmitted | app/quiz/routes.py:288-293 | an exam opened after its expiry is marked submitted with completion time now; nothing else changes |
| QuizRoutes.RenderedPageInRange | app/quiz/routes.py:295-300 | a rendered page lies within the id list, and its question is the id at that page |
| QuizRoutes.TakeTouchesOneSession | app/quiz/routes.py:274-367 | `take` changes no question, no choice and no other session, and leaves a submitted session as it was |
| QuizRoutes.TakeKeepsOnePerPair | app/quiz/routes.py:305-316 | `take` keeps at most one answer per (session, question) |
| QuizRoutes.TakeSavesChoice | app/quiz/routes.py:302-316 | a POST with a choice stores it by the upsert for the page's question |
| QuizRoutes.TakeQuiz | app/quiz/routes.py:274-367 | the route, run in place, gives the outcome, sessions and answers of the pure step |
| QuizRoutes.TakeSession | app/quiz/routes.py:284-335 | the same for a found session, with its ids and page parsed |
| QuizRoutes.CorrectChoice | app/quiz/routes.py:408 | a choice of the question that is marked correct, or none when no choice of the question is marked |
| QuizRoutes.AnsMapKeys | app/quiz/routes.py:392-393 | the answer map's keys are exactly the questions answered in the session |
| QuizRoutes.AnsMapOfAnswer | app/quiz/routes.py:393 | with one answer per pair, the map holds each answer's choice for its question |
| QuizRoutes.SavedChoiceIsScored | app/quiz/routes.py:139-393 | the choice last saved for a question is the one scored |
| QuizRoutes.StatusOf | app/quiz/routes.py:412-420 | unanswered exactly when there is no answer; correct exactly when the answer is the correct choice's id; wrong for any other answer, including when no choice is marked correct |
| QuizRoutes.ReviewsFacts | app/quiz/routes.py:403-433 | one review item per id whose question exists, at most one per id, each numbered by its position and built from that question |
| QuizRoutes.ReviewsOrdered | app/quiz/routes.py:403-433 | review items follow the order of the id list |
| QuizRoutes.CountStatus | app/quiz/routes.py:417-420 | a status count never exceeds the number of items |
| QuizRoutes.CorrectPlusWrong | app/quiz/routes.py:412-420 | correct + wrong never exceeds the number of reviewed questions |
| QuizRoutes.NonZeroCount | app/quiz/routes.py:395 | the non-zero ids are no more than the ids |
| QuizRoutes.ReviewsStep | app/quiz/routes.py:403-433 | one more id adds one review item exactly when its question exists |
| QuizRoutes.CountStep | app/quiz/routes.py:412-420 | one more item raises the count of its own status by one and no other |
| QuizRoutes.ScoreLoop | app/quiz/routes.py:399-433 | the loop's counters are the numbers of correct and wrong items of the review it builds |
| QuizRoutes.ScoreFacts | app/quiz/routes.py:395-437 | the stored score is the correct count and nothing else changes; correct + wrong ≤ reviewed ≤ ids; total ≤ ids; unanswered = max(0, total − answered) |
| QuizRoutes.ShowResult | app/quiz/routes.py:371-451 | the route, run in place, gives the outcome and sessions of the pure step |
| QuizRoutes.ScoreRow | app/quiz/routes.py:380-437 | the same for a found session and its ids |
| Importer.GetCell | app/admin/importer.py:38-39 | a missing cell reads as ""; a present one is its stripped value, with no surrounding whitespace |
| Importer.NormTextShape | app/admin/importer.py:32-35 | the normalised text has no surrounding whitespace, is lower-case, and every whitespace run in it is one space |
| Importer.NormTextIdempotent | app/admin/importer.py:32-35 | normalising twice is normalising once |
| Importer.NormTextNone | app/admin/importer.py:33 | `None` normalises to "" |
| Importer.Note | app/admin/importer.py:51-66 | one `if ...: errs.append(...)` step adds its message exactly when its test fails |
| Importer.NoteOptionsMembers | app/admin/importer.py:61-63 | the option loop adds exactly one "Missing option_x" message per empty option |
| Importer.ProblemsEmpty | app/admin/importer.py:68 | the error list is empty exactly when level, type and text are filled, the mode is trial or exam, all four options are filled, and the label is A–D |
| Importer.ProblemsMention | app/admin/importer.py:42-68 | each message is present exactly when its check fails: missing level, type or text; a mode that is not trial/exam after lower-casing; each empty option; a label that is not A–D after upper-casing |
| Importer.OptionMention | app/admin/importer.py:61-63 | the message for option i is present exactly when that option is empty |
| Importer.FixedMentions | app/admin/importer.py:51-66 | the five fixed messages are present exactly when their checks fail |
| Importer.ValidateRow | app/admin/importer.py:42-68 | the loop builds the error list in the source's order, and `ok` holds exactly when the row is acceptable |
| Importer.LStripChar | app/admin/importer.py:109 | `lstrip(c)` drops a prefix and leaves no leading c |
| Importer.NormHeaders | app/admin/importer.py:109 | empty header names are dropped, so the list can only shrink |
| Importer.NormHeaderDropsBom | app/admin/importer.py:109 | a clean name is kept as it is, and a leading BOM in front of it is removed |
| Importer.NormHeadersMembers | app/admin/importer.py:109-110 | a rewritten name is present exactly when some non-empty header rewrites to it |
| Importer.SortedSet | app/admin/importer.py:116 | `sorted(set)`: the same members, in ascending order |
| Importer.MissingIsSorted | app/admin/importer.py:112-116 | the missing list is in ascending order, holds exactly the required columns absent from the headers, and is the only such list |
| Importer.ZipLookup | app/admin/importer.py:121 | a name's cell is the value under its last occurrence in the header, and is missing when the record is too short |
| Importer.ZipKeys | app/admin/importer.py:121 | a name not in the header has no cell |
| Importer.RowOfLookup | app/admin/importer.py:121 | the same two facts for the whole row |
| Importer.Prefix | app/admin/importer.py:132 | `s[:120]` is a prefix of at most 120 characters, and is the whole string when it is short enough |
| Importer.FindDuplicateSpec | app/admin/importer.py:146-152 | the scan finds a question of the same band and type with equal normalised text exactly when one exists, and what it finds is one |
| Importer.NextQuestionId | app/admin/importer.py:162-163 | a new question's id is above every id in the table |
| Importer.CellsList | app/admin/importer.py:121-124 | each record's cells are read under the rewritten header |
| Importer.AddChoicesFacts | app/admin/importer.py:175-182 | the choice loop adds one choice per label under consecutive fresh ids, each carrying its option text and correct exactly for the chosen label, and changes no other choice |
| Importer.NewChoices | app/admin/importer.py:165-182 | an inserted question gets exactly four new choices A–D with their texts, and exactly one of them, the one for `correct_option`, is correct |
| Importer.VerdictIff | app/admin/importer.py:124-154 | a row is rejected exactly when validation fails, and skipped as a duplicate exactly when it is valid and a question of its band and type already has its normalised text |
| Importer.StepRejects | app/admin/importer.py:122-135 | a rejected row is counted and adds one error carrying its row number, its messages joined by "; " and its level, type and first 120 characters of text; tables are unchanged |
| Importer.StepSkips | app/admin/importer.py:152-154 | a duplicate row is counted and skipped; tables are unchanged |
| Importer.StepInserts | app/admin/importer.py:156-184 | a fresh row appends one question with its band, type and text, an explanation only when one was given, four choices, and raises the question count by 1 and the choice count by 4 |
| Importer.ApplyInserts | app/admin/importer.py:156-184 | the same for the insert branch taken on its own |
| Importer.StepBalanced | app/admin/importer.py:121-184 | one row keeps the counters balanced: rows = errors + skipped + inserted, choices = 4 × inserted |
| Importer.RowsBalanced | app/admin/importer.py:121-184 | the same over all rows, and every row is counted |
| Importer.ImportCounts | app/admin/importer.py:104-186 | with a complete header, `rows_total` is the number of data records and equals errors + skipped + inserted, and `inserted_choices` is 4 × `inserted_questions` |
| Importer.HeaderProblems | app/admin/importer.py:104-118 | no header gives one row-0 error; a header lacking a required column gives one row-0 error listing the missing columns sorted; in both cases nothing is inserted |
| Importer.RowsGrow | app/admin/importer.py:121-184 | the import only appends questions and adds choices; existing rows are unchanged |
| Importer.RowsCover | app/admin/importer.py:143-184 | no row would be inserted again over the tables the import leaves |
| Importer.RowsInsertNothing | app/admin/importer.py:143-154 | rows none of which is fresh insert nothing |
| Importer.ImportTwice | app/admin/importer.py:71-192 | importing the same file again inserts no question and no choice |
| Importer.Classify | app/admin/importer.py:124-151 | reads the cells, the error list and the verdict the row gets |
| Importer.ImportRow | app/admin/importer.py:122-184 | one loop pass, run in place, gives the summary and tables of the pure row step |
| Importer.Dispose | app/admin/importer.py:125-184 | the branch for a row's verdict, run in place, gives the summary and tables of the pure step |
| Importer.InsertChoices | app/admin/importer.py:175-182 | the choice loop, run in place, adds the four choices the pure step does |
| Importer.ImportQuestions | app/admin/importer.py:71-192 | the whole import, run in place, gives the summary and tables of the pure import |
| Importer.ImportRecords | app/admin/importer.py:120-186 | the row loop, run in place, folds the pure row step over the data records |
| AuthUtils.ResetTokenExpiredSpec | app/auth/utils.py:8-9 | with no expiry the token counts as expired; otherwise it is expired exactly when its expiry is strictly before now, so an expiry equal to now is not expired |
| AuthUtils.ResetTokenStaysExpired | app/auth/utils.py:9 | an expired token stays expired at every later time |
| AuthRoutes.ReferralSpec | app/auth/routes.py:24-32 | `referred_by` is the default code or a code some user holds; a truthy query ref wins when a user holds it and gives the default otherwise; without one, a truthy session ref is treated the same way |
| AuthRoutes.SixDigitCode | app/auth/routes.py:47 | `str(randint(100000, 999999))` is six digits and reads back as the number |
| AuthRoutes.RegisterFormErrors | app/auth/forms.py:11-19 | the form raises no error exactly when both the username and the email are free; otherwise it flags each taken field, both at once when both are taken |
| AuthRoutes.RegisterRefusals | app/auth/routes.py:19-44 | an account is registered exactly when no one is logged in, the form is submitted, and both the email and the username are free; a submitted form with a taken value is shown again with an error on every taken field; any other reply changes nothing |
| AuthRoutes.RegisterAddsAccount | app/auth/routes.py:49-62 | a registration adds exactly one user under a fresh id and changes no other; the new user has the form's email and username and the password's hash, is unverified, holds no referral code, has balance 0, is not an admin, records the chosen referral code, and was created now |
| AuthRoutes.RegisterIssuesCode | app/auth/routes.py:47-70 | the new user's code is the printed draw, expiring 10 minutes from now, last sent now; the session drops `ref` and remembers the email to verify |
| AuthRoutes.Register | app/auth/routes.py:17-75 | the route, run in place, gives the reply, users and session of the pure step |
| AuthRoutes.Login | app/auth/routes.py:78-113 | the route, run in place, gives the reply, users and session of the pure step |
| AuthRoutes.Logout | app/auth/routes.py:115-121 | the route, run in place, gives the reply and users of the pure step |
| AuthRoutes.ConfirmEmail | app/auth/routes.py:124-167 | the route, run in place, gives the reply, users and session of the pure step |
| AuthRoutes.ResendConfirmation | app/auth/routes.py:172-210 | the route, run in place, gives the reply and users of the pure step |
| AuthRoutes.UserByResetToken | app/auth/routes.py:236 | the lookup finds a user holding the token, or reports that none holds it |
| AuthRoutes.ForgotPassword | app/auth/routes.py:213-231 | the route, run in place, gives the reply and users of the pure step |
| AuthRoutes.ResetPassword | app/auth/routes.py:234-258 | the route, run in place, gives the reply and users of the pure step |
| AuthRoutes.UpdateKeepsConsistent | app/models/user.py:9-23 | replacing a user by one with the same email and username, whose code and token each come with an expiry, keeps emails and usernames unique and every user paired |
| AuthRoutes.RemoveKeepsConsistent | app/models/user.py:9-23 | deleting a user keeps the table consistent |
| AuthRoutes.RegisterKeepsConsistent | app/auth/routes.py:36-62 | registration keeps emails and usernames unique and every code paired with its expiry |
| AuthRoutes.LoginKeepsConsistent | app/auth/routes.py:86-107 | login keeps the table consistent |
| AuthRoutes.LogoutKeepsConsistent | app/auth/routes.py:117-119 | logout keeps the table consistent |
| AuthRoutes.ConfirmKeepsConsistent | app/auth/routes.py:131-160 | confirmation keeps the table consistent |
| AuthRoutes.ResendKeepsConsistent | app/auth/routes.py:175-195 | resending keeps the table consistent |
| AuthRoutes.ForgotKeepsConsistent | app/auth/routes.py:217-225 | a reset request keeps the table consistent |
| AuthRoutes.ResetKeepsConsistent | app/auth/routes.py:236-253 | a reset keeps the table consistent |
| AuthRoutes.ConfirmNeverFails | app/auth/routes.py:143-146 | in a consistent table, the expiry comparison always has an expiry to compare when the code matches, so confirmation never ends in a server error |
| AuthRoutes.ResetNeverFails | app/auth/routes.py:236-238 | in a consistent table a token always has an expiry, so the reset route never ends in a server error |
| AuthRoutes.UserByEmailIs | app/auth/routes.py:131 | with unique emails, the lookup by a user's email finds that user |
| AuthRoutes.LoginSpec | app/auth/routes.py:80-111 | login succeeds exactly when no one is logged in, the email's user exists, is not stale, the password checks and the email is verified; the user's session token is then replaced by the new token, which the session also holds, and nothing else changes; with an unverified email and the right password the user is sent to confirm; a stale account is deleted; every other reply changes nothing |
| AuthRoutes.LoginThenLogout | app/auth/routes.py:103-121 | a login followed by a logout leaves the users as before, with the user's session token cleared |
| AuthRoutes.ConfirmSpec | app/auth/routes.py:127-162 | confirmation succeeds exactly when the session names a user who is not stale, the code matches, the expiry is not before now, and a referral code is held or can be drawn; a stale account is deleted and the session forgets it; every other reply changes nothing |
| AuthRoutes.ConfirmEffect | app/auth/routes.py:150-162 | on success only this user changes: verified, code and expiry cleared, an existing referral code kept and a missing one replaced by a fresh 8-character code no user holds; the session drops the email to verify |
| AuthRoutes.ResendSpec | app/auth/routes.py:174-195 | refused as too soon exactly within 60 seconds of the last send; resent exactly when the user exists, is unverified, is past the cooldown and is not stale, and then only the code, its expiry 10 minutes on and the last-sent time change; a stale account is deleted; every other reply changes nothing |
| AuthRoutes.ResendCooldownHolds | app/auth/routes.py:180-193 | a second resend less than 60 seconds after a successful one is refused as too soon |
| AuthRoutes.ResendThenConfirm | app/auth/routes.py:143-193 | entering the resent code within 10 minutes, while the account is not stale, confirms it unless no free referral code is drawn, and always confirms a user who already holds a referral code |
| AuthRoutes.ResetSpec | app/auth/routes.py:236-253 | an unknown token is refused; a known token is refused exactly when it has expired; the password changes exactly when the token is valid and the two passwords match, and then only this user's hash, token and token expiry change; any other reply changes nothing |
| AuthRoutes.ResetSingleUse | app/auth/routes.py:236-252 | after a successful reset, the same token is refused |
| AuthRoutes.ForgotThenReset | app/auth/routes.py:213-253 | a reset link used within 30 minutes sets the new password's hash, and the link is refused afterwards |
| Config.GetEnv | config.py:5-8 | a set, non-empty variable gives its value; an unset or empty one gives the default |
| Config.GetEnvNotEmpty | config.py:8 | the empty string is returned only when it is the default |
| Config.AsBoolSpec | config.py:11-14 | no value gives the default; otherwise the default does not matter, and the value is true exactly when its stripped, lower-cased form is one of 1, true, yes, y, on |
| Config.AsBoolExamples | config.py:11-14 | an empty value is false even with default true, and no value gives the default |
| Config.AsInt | config.py:17-20 | no value or "" gives the default; otherwise `int(value)`, which reads "1_000" as 1000 and may fail |
| Config.AsIntOfPrinted | config.py:17-20 | a printed integer reads as itself |
| Config.NormalizeDbUrlSpec | config.py:29-33 | a leading "postgres://" becomes "postgresql://" with the rest kept; any other URL is unchanged |
| Config.NormalizeDbUrlIdempotent | config.py:29-33 | rewriting twice is rewriting once |
| AdminRoutes.AfterLastDotSpec | app/admin/routes.py:15 | the split finds a piece exactly when the name has a dot, and the piece is what follows the last dot |
| AdminRoutes.AllowedFileSpec | app/admin/routes.py:14-15 | a name is allowed exactly when it ends in a dot followed by "csv" in any letter case, so "x.csv.exe" and "x." are refused |
| AdminRoutes.AllowedFileExamples | app/admin/routes.py:14-15 | ".csv" and ".CSV" endings are allowed, and a name without a dot is not |
| PaystackBanks.ByNamePreorder | app/services/paystack_banks.py:26 | ordering by lower-cased name is a total preorder |
| PaystackBanks.NairaBanksMembers | app/services/paystack_banks.py:16-23 | a bank is listed exactly when some active NGN record has its name and code |
| PaystackBanks.FetchBanksFails | app/services/paystack_banks.py:12-13 | the fetch fails exactly when the response is not ok or its status is false |
| PaystackBanks.FetchBanksContents | app/services/paystack_banks.py:12-27 | otherwise the result holds exactly the filtered banks, each as often as it was filtered, each with its record's name and code |
| PaystackBanks.FetchBanksOrdered | app/services/paystack_banks.py:26-27 | the result is ordered by lower-cased name, and banks with equal keys keep the response's order |
| Sorting.Sort | app/services/paystack_banks.py:26 | `list.sort` keeps the length and the elements |
| Sorting.SortSorted | app/services/paystack_banks.py:26 | under a total preorder the result is ordered |
| Sorting.SortStable | app/services/paystack_banks.py:26 | elements with equal keys keep their relative order |
| Sorting.FilterMembers | app/services/paystack_banks.py:16-23 | a comprehension's filter keeps exactly the elements that pass |
| Sorting.FilterPermutes | app/quiz/routes.py:178-186 | filtering a reordering of a sequence gives a reordering of the filtered sequence, so `ORDER BY random()` keeps the matching rows |
| AddIds.IdColumn | tools/add_ids.py:24-28 | one id per row, the id of row i being "PSR2021-", the bank, "-" and i + 1 zero-padded |
| AddIds.QuestionIdShape | tools/add_ids.py:26 | an id is the prefix followed by at least five digits that read as the row number from 1 |
| AddIds.QuestionIdInjective | tools/add_ids.py:26 | two rows never get the same id |
| AddIds.IdsDistinct | tools/add_ids.py:24-28 | a file's ids are as many as its rows and pairwise distinct |
| AddIds.WithIdsSpec | tools/add_ids.py:22-29 | the insert raises exactly when the frame already has a `question_id` column; otherwise the id column is inserted first, the other columns follow unchanged and in order, and the frame keeps its rows |
| AddIds.OutputNameOfStem | tools/add_ids.py:31 | a name whose only dot begins its ".csv" ending gets "_with_ids" before the ending |
| AddIds.AddIdsToFiles | tools/add_ids.py:14-32 | the loop, run in place over the files, leaves them as the pure pass over the list does and reports whether it stopped on a `ValueError` |
| AddIds.ProcessFileSpec | tools/add_ids.py:16-32 | a missing input is skipped and changes nothing; an input that already has a `question_id` column stops the script with nothing written for it; any other writes exactly its output file, holding the frame with its ids, and no other file changes |
| AddIds.NeverRaises | tools/add_ids.py:14-32 | when no listed input has a `question_id` column and no output name is a listed input, the script runs to the end |
| AddIds.ProcessAllFrame | tools/add_ids.py:14-32 | after the loop, whether or not it stopped early, every file is an input or some listed output, and a file that is no listed output is unchanged |
| Text.TrimIdempotent | app/admin/importer.py:33 | stripping twice is stripping once |
| Text.TrimLowerCommute | config.py:14 | stripping and lower-casing commute |
| Text.SplitJoin | app/models/quiz.py:73 | splitting the comma join of comma-free pieces gives the pieces back |
| Text.ParseIntToString | app/models/quiz.py:73 | `int(str(n)) == n` for every integer |
| Text.IntToStringInjective | app/quiz/routes.py:264 | distinct integers print differently |
| Text.UnderscoreRead | config.py:20 | `int()` ignores a single `_` between digits, so "1_0" reads as 10 |
| Text.SeparatedPair | config.py:20 | two digits with one `_` between them are a literal worth the two-digit number |
| Text.UnderscoreRefused | config.py:20 | a doubled, leading or trailing `_` is refused |
| Text.ZFillNatValue | tools/add_ids.py:26 | a zero-padded number is all digits and keeps its value |
| Text.ReplaceAllAtEnd | tools/add_ids.py:31 | when the text before a final occurrence of the pattern cannot start one, only that final occurrence is replaced |
| Text.StrLessTotal | app/services/paystack_banks.py:26 | code-point order on strings is total |

## Left out

- HTTP calls to the payment gateway (app/subscriptions/routes.py:53-76, app/services/paystack.py, app/services/paystack_banks.py:7-11): their answers are inputs.
- Email sending (app/auth/email.py and the sends in app/auth/routes.py:65-66, 198-207, 227): network I/O only. Every send comes after the commit, so the database state is the same whether or not it succeeds. In `register` the send (app/auth/routes.py:67) comes before `session["verify_email"]` is set (:70), so a failed send leaves the session without the pending email. The model treats every send as successful.
- Sessions, `commit`/`rollback` and row locking (app/admin/withdrawals.py:64-70, 99-101, app/admin/importer.py:188-190): one sequential state is modelled, so the importer's database-error path is absent. The rejection branch of the withdrawal update fails as written and is recorded under Findings.
- Floating point: float columns are integer hundredths, `float()` in app/services/wallet.py:14 is dropped, `rand_key` is an integer key (see Findings for the missing mapped attribute), and the history and result percentages (app/quiz/routes.py:27-113, 439) are not modelled.
- `_as_float` (config.py:23-26) reads floats; it and the `Config` class attributes (config.py:36 onwards) are not modelled.
- Randomness: `random`, `secrets` and `uuid` draws are parameters. The trial order (app/quiz/routes.py:178-186) is an input sequence; `QuizRoutes.StartQuiz` requires it to be a reordering of the question table.
- AppUtils.GenerateReferralCode: the `while True` retry loop runs over a given finite sequence of draws and returns `None` when they run out; the source would keep drawing.
- AppUtils.GenerateUniqueReferralCode: the same bounded retry as above.
- AuthRoutes.ResendThenConfirm: confirmation needs a free referral code from the given draws, so the lemma promises success only when one is drawn or the user already holds a code.
- AuthRoutes.ConfirmEmail: the referral-code retry is bounded by the draws, and running out is a reply of its own (`NoFreeReferralCode`) that changes nothing.
- Flask wiring: routing, templates, flash messages, redirects and the login decorators. `current_user` and `is_authenticated` are parameters, and the cookie session is a map of strings.
- Python exceptions that end a request as an HTTP 500 are the reply `ServerError`, with no change. Examples are a `<` between `None` and a datetime, and a missing key in the webhook payload.
- Password hashing (app/models/user.py:34-38) wraps werkzeug: the hash is a given function, and checking a password compares hashes.
- WTForms validation (app/auth/forms.py): a handler receives `validate_on_submit()` as a flag, and form fields as optional strings. For sign-up, the form's own `validate_username` and `validate_email` are modelled (`AuthRoutes.RegisterFormErrors`). They already refuse a taken value, so the route's duplicate checks at app/auth/routes.py:37-44 can never fire and are not modelled.
- The withdrawals listing route (app/admin/withdrawals.py:17-27), the dashboard and referral pages and the legacy app/routes.py are display queries or duplicates; they are not modelled.
- The quiz history page (app/quiz/routes.py:27-113), `choose_level` (app/quiz/routes.py:189-208) and `remaining_seconds` (app/quiz/routes.py:352-354) are display code and are not modelled.
- CSV decoding and the BOM/encoding fallback of the importer (app/admin/importer.py:95-102): records arrive as already decoded rows of strings.
- String column lengths (for example `String(120)`) are not enforced.
- Foreign keys are not enforced. `QuizRoutes.TakePost` stores any integer `choice_id` (app/quiz/routes.py:305-316), as the source does; on a database that enforces foreign keys, an id naming no choice would make the commit fail.
- QuestionSelector.Pick: SQL's `ORDER BY rand_key` (app/services/question_selector.py:12, 24) leaves rows with equal keys in an unspecified order; the model keeps them in table order, which is one of the orders the database may return.
- Lower- and upper-casing is ASCII only. No Unicode case folding or normalisation is modelled.
- `banks.sort` reorders a list in place; the model sorts the value, so aliasing of that list is not captured.
- tools/add_ids.py: pandas reading and writing and the `print` calls are not modelled. Files are a map from names to frames.
- `ORDER BY expires_at DESC` puts NULLs in a place that depends on the database. That placement is the parameter `nullsFirst`.
- `.first()` without an `ORDER BY` returns some row; the model takes the lowest id. The unique columns make the choice moot where it matters.
- The webhook looks subscriptions up by `payment_reference` (app/payments/webhooks.py:19-21), but `start_subscription` sets only `reference` (app/subscriptions/routes.py:44-49). This is kept as written, so a webhook for a subscription started on this site finds nothing.
- `resend_confirmation` updates the code, its expiry and `last_confirmation_sent`, but not `email_code_sent_at` (app/auth/routes.py:191-193). This is kept as written.
- AuthRoutes.ResetPassword: the form's two fields are strings. The source's case of two missing fields, which compare equal as `None == None` and reach the password update with no value (app/auth/routes.py:243-246), is not modelled.
- The importer's header filter drops empty header names before the `zip`, so the later columns shift left (app/admin/importer.py:109). This is kept as written.
- Text.ParseInt: reads ASCII digits only. Python's `int()` also reads other Unicode decimal digits, such as full-width ones; the model refuses those.
- Fees.CalcWithdrawalFee: the floor and the ceiling are whole hundredths. The source reads them as `Decimal(str(value))` (app/services/fees.py:13, 18), so a configured floor such as "0.005" would give a fee with more than two decimals; the model cannot express that.
- AuthRoutes.LoginSpec: `current_session_token` is not a column of `user` (app/models/user.py:7-23). The login and logout routes set it as a plain attribute on the loaded object (app/auth/routes.py:105, 118), so it lasts only for that request. The model keeps it in the user record, so the token it reports after login, and its clearing in `AuthRoutes.LoginThenLogout`, are not state the program stores.
- QuizRoutes.Autosave: a JSON number with a fraction is not modelled, since `int()` would truncate a float. A body that decodes to something other than an object makes `data.get` raise; the model takes the body to be an object or missing.

## Findings

| source | as written | input that shows it | evidently intended | confidence | as-written member | corrected member |
|---|---|---|---|---|---|---|
| app/admin/withdrawals.py:64 | the rejection branch opens `with db.session.begin():` after `get_or_404` (:34) has already begun the session's transaction, which raises `InvalidRequestError` under SQLAlchemy's autobegin (1.4 and later); the refund at :72 also adds a `Decimal` to the float `wallet_balance` (app/models/user.py:16), a `TypeError` for any non-zero balance; the `except` at :99-102 rolls back | the operator rejects a pending request: the page reports "Update failed", the status stays pending and no refund is made | the refund and the rejected status committed together in the request's transaction, as the branch's comment says; `AdminWithdrawals.RejectFailsAsWritten` shows the gap, and `AdminWithdrawals.WalletEffects` proves the intended refund | not executed; high | AdminWithdrawals.UpdateAsWritten | AdminWithdrawals.Update |
| app/services/question_selector.py:11 | `Question.rand_key` is read, but the mapped `Question` class (app/models/quiz.py:12-31) declares no `rand_key`; only the migration adds the column, so the read raises `AttributeError` | a subscriber opens `/start/<level>?qt=psr` with a valid level and at least 70 matching questions: the request ends in an HTTP 500 | `rand_key` mapped as a column, so that the exam selection runs; `QuizRoutes.SubscriberStartFails` shows the gap, and `QuizRoutes.ExamStartsIffEnough` proves the intended start | not executed; high | QuizRoutes.StartAsWritten | QuizRoutes.Start |
