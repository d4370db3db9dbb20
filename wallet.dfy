/**
 * The withdrawable balance: the wallet balance less every amount still reserved by the user's
 * open withdrawal requests (status pending, approved or processing).
 */
module Wallet {
  import opened Wrappers
  import opened Money
  import opened Tables
  import opened WithdrawalModel

  /** The statuses whose amount is still held back; the test is an exact string match. */
  const ReservedStatuses: set<string> := {Pending, Approved, Processing}

  /** What one row adds to the pending sum for `userId`: its amount when the row is the user's and
      open; SQL's SUM skips a NULL amount, so a missing amount adds nothing. */
  function Held(userId: int, r: WithdrawalRequest): Cents {
    if r.userId == userId && r.status in ReservedStatuses then r.amount.GetOr(0) else 0
  }

  /** `coalesce(sum(amount), 0)` over the user's open requests, summed in key order. */
  function PendingSum(userId: int, rows: map<int, WithdrawalRequest>): Cents
    decreases |rows|
  {
    if exists k :: k in rows then
      var k := Least(rows.Keys);
      Held(userId, rows[k]) + PendingSum(userId, rows - {k})
    else
      0
  }

  /** `get_withdrawable_balance`. */
  function WithdrawableBalance(userId: int, walletBalance: Cents, rows: map<int, WithdrawalRequest>): Cents {
    walletBalance - PendingSum(userId, rows)
  }

  /** The least key of a map stays the least once another key is removed. */
  lemma LeastAfterRemove(m: map<int, WithdrawalRequest>, l: int, j: int)
    requires l in m && j in m && l != j && forall k :: k in m ==> l <= k
    ensures l in (m - {j}).Keys && Least((m - {j}).Keys) == l
  {
    var r := m - {j};
    assert l in r.Keys;
    var x := Least(r.Keys);
    assert x <= l && l <= x;
  }

  /** The sum does not depend on the order of summation: any one row can be taken out first. */
  lemma {:induction false} PendingSumRemove(userId: int, rows: map<int, WithdrawalRequest>, j: int)
    requires j in rows
    ensures PendingSum(userId, rows) == Held(userId, rows[j]) + PendingSum(userId, rows - {j})
    decreases |rows|
  {
    var l := Least(rows.Keys);
    if l != j {
      var rest := rows - {l};
      assert j in rest;
      PendingSumRemove(userId, rest, j);
      var without := rows - {j};
      LeastAfterRemove(rows, l, j);
      assert l in without;
      assert without - {l} == rest - {j};
      assert without[l] == rows[l];
    }
  }

  /** Adding one request to the table adds exactly what that row holds. */
  lemma PendingSumInsert(userId: int, rows: map<int, WithdrawalRequest>, k: int, r: WithdrawalRequest)
    requires k !in rows
    ensures PendingSum(userId, rows[k := r]) == PendingSum(userId, rows) + Held(userId, r)
  {
    PendingSumRemove(userId, rows[k := r], k);
    assert rows[k := r] - {k} == rows;
  }

  /** With no open request of the user's, nothing is subtracted. */
  lemma {:induction false} NoOpenRequestsNoHold(userId: int, rows: map<int, WithdrawalRequest>)
    requires forall k :: k in rows ==> Held(userId, rows[k]) == 0
    ensures PendingSum(userId, rows) == 0
    decreases |rows|
  {
    if exists k :: k in rows {
      var k := Least(rows.Keys);
      NoOpenRequestsNoHold(userId, rows - {k});
    }
  }

  /** In particular, when none of the user's requests is open (another user's, or paid, rejected
      or failed), the withdrawable balance is the whole wallet balance. */
  lemma NoOpenRequestsWholeBalance(userId: int, walletBalance: Cents, rows: map<int, WithdrawalRequest>)
    requires forall k :: k in rows ==> rows[k].userId != userId || rows[k].status !in ReservedStatuses
    ensures WithdrawableBalance(userId, walletBalance, rows) == walletBalance
  {
    NoOpenRequestsNoHold(userId, rows);
  }

  /** With no amounts below zero, the pending sum is never negative, so the withdrawable balance
      never exceeds the wallet balance. */
  lemma {:induction false} PendingSumNonNegative(userId: int, rows: map<int, WithdrawalRequest>)
    requires forall k :: k in rows ==> rows[k].amount.GetOr(0) >= 0
    ensures PendingSum(userId, rows) >= 0
    decreases |rows|
  {
    if exists k :: k in rows {
      var k := Least(rows.Keys);
      PendingSumNonNegative(userId, rows - {k});
    }
  }

  lemma WithdrawableAtMostBalance(userId: int, walletBalance: Cents, rows: map<int, WithdrawalRequest>)
    requires forall k :: k in rows ==> rows[k].amount.GetOr(0) >= 0
    ensures WithdrawableBalance(userId, walletBalance, rows) <= walletBalance
  {
    PendingSumNonNegative(userId, rows);
  }

  /** A new open request of the user's for `a` lowers the withdrawable balance by exactly `a`;
      a request of another user's, or one in any other status, leaves it as it is. */
  lemma NewRequestEffect(userId: int, walletBalance: Cents, rows: map<int, WithdrawalRequest>, k: int, r: WithdrawalRequest)
    requires k !in rows
    ensures r.userId == userId && r.status in ReservedStatuses ==>
      WithdrawableBalance(userId, walletBalance, rows[k := r])
        == WithdrawableBalance(userId, walletBalance, rows) - r.amount.GetOr(0)
    ensures r.userId != userId || r.status !in ReservedStatuses ==>
      WithdrawableBalance(userId, walletBalance, rows[k := r]) == WithdrawableBalance(userId, walletBalance, rows)
  {
    PendingSumInsert(userId, rows, k, r);
  }

  /** Rewriting one row changes the sum by the difference of what the two versions hold. */
  lemma PendingSumReplace(userId: int, rows: map<int, WithdrawalRequest>, k: int, r: WithdrawalRequest)
    requires k in rows
    ensures PendingSum(userId, rows[k := r]) == PendingSum(userId, rows) - Held(userId, rows[k]) + Held(userId, r)
  {
    PendingSumRemove(userId, rows, k);
    PendingSumRemove(userId, rows[k := r], k);
    assert rows[k := r] - {k} == rows - {k};
  }
}
