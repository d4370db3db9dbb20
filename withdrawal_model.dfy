/** The `withdrawal_requests` table and its two status properties. */
module WithdrawalModel {
  import opened Wrappers
  import opened Clock
  import opened Money

  /** A row of `withdrawal_requests`. `status` is the stored string; the six values the
      application writes are the constants below. */
  datatype WithdrawalRequest = WithdrawalRequest(
    id: int,
    userId: int,
    amount: Option<Cents>,
    status: string,
    note: Option<string>,
    createdAt: Time,
    processedAt: Option<Time>)

  const Pending: string := "pending"
  const Approved: string := "approved"
  const Processing: string := "processing"
  const Paid: string := "paid"
  const Rejected: string := "rejected"
  const Failed: string := "failed"

  /** The statuses a request can be given. */
  const Statuses: set<string> := {Pending, Approved, Processing, Paid, Rejected, Failed}

  /** The statuses `is_final` recognises. */
  const FinalStatuses: set<string> := {Paid, Rejected, Failed}

  /** A request as the model's column defaults create it. */
  function NewRequest(id: int, userId: int, amount: Cents, createdAt: Time): (r: WithdrawalRequest)
    ensures r.status == Pending && IsPending(r) && !IsFinal(r)
    ensures r.id == id && r.userId == userId && r.amount == Some(amount)
    ensures r.note.None? && r.processedAt.None? && r.createdAt == createdAt
  {
    WithdrawalRequest(id, userId, Some(amount), Pending, None, createdAt, None)
  }

  /** `is_pending`. */
  predicate IsPending(r: WithdrawalRequest) {
    r.status == Pending
  }

  /** `is_final`: an exact test on the stored string. */
  predicate IsFinal(r: WithdrawalRequest) {
    r.status in FinalStatuses
  }

  lemma IsFinalCases(r: WithdrawalRequest)
    ensures IsFinal(r) <==> r.status == "paid" || r.status == "rejected" || r.status == "failed"
  {
  }

  /** A request is never both pending and final. */
  lemma PendingNotFinal(r: WithdrawalRequest)
    ensures !(IsPending(r) && IsFinal(r))
  {
  }
}
