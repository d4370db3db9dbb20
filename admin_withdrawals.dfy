/**
 * The operator's status update of a withdrawal request: a state machine over the request's
 * status, with a refund of the reserved amount to the owner's wallet on rejection.
 */
module AdminWithdrawals {
  import opened Wrappers
  import opened Clock
  import opened Money
  import opened Text
  import opened UserModel
  import opened WithdrawalModel
  import opened Store
  import opened Wallet

  /** Why an update was refused. `UpdateFailed` is the handler's `except` branch: the owner row
      that `.one()` must find is missing, the transaction is rolled back. */
  datatype Refusal = NotFound | InvalidStatus | AlreadyFinal | InvalidTransition(from: string, to: string) | UpdateFailed

  datatype Outcome = Updated(status: string) | Refused(reason: Refusal)

  /** The transitions the operator may make, keyed by the current status. */
  const Transitions: map<string, set<string>> := map[
    Pending := {Approved, Rejected},
    Approved := {Processing, Rejected, Paid},
    Processing := {Paid, Failed}]

  /** The same transitions, listed pair by pair. */
  const AcceptedPairs: set<(string, string)> := {
    (Pending, Approved), (Pending, Rejected),
    (Approved, Processing), (Approved, Rejected), (Approved, Paid),
    (Processing, Paid), (Processing, Failed)}

  /** The submitted status, stripped and lower-cased; a missing field reads as "". */
  function NormStatus(field: Option<string>): string {
    Lower(Trim(field.GetOr("")))
  }

  /** The submitted note, stripped; blank becomes `None`. */
  function NormNote(field: Option<string>): (r: Option<string>)
    ensures r.None? <==> Trim(field.GetOr("")) == ""
    ensures r.Some? ==> r.value == Trim(field.GetOr(""))
    ensures r.Some? ==> !IsSpace(r.value[0]) && !IsSpace(r.value[|r.value| - 1])
  {
    var t := Trim(field.GetOr(""));
    TrimEnds(field.GetOr(""));
    if t == "" then None else Some(t)
  }

  /** The checks made before anything is written, in the handler's order: the target must be
      one of the six statuses, the current status (lower-cased) must not be final, and the pair
      must be in the transition table. `None` means the update goes ahead. */
  function Check(current: string, target: string): Option<Refusal> {
    if target !in Statuses then Some(InvalidStatus)
    else
      var c := Lower(current);
      if c in FinalStatuses then Some(AlreadyFinal)
      else if c !in Transitions || target !in Transitions[c] then Some(InvalidTransition(c, target))
      else None
  }

  /** `processed_at` after the update: stamped for paid, failed and rejected; stamped for
      approved and processing only when not yet set. */
  function Stamp(target: string, prev: Option<Time>, now: Time): Option<Time> {
    if target == Paid || target == Failed || target == Rejected then Some(now)
    else if prev.None? && (target == Approved || target == Processing) then Some(now)
    else prev
  }

  /** The request after an accepted update. */
  function Applied(wr: WithdrawalRequest, target: string, note: Option<string>, now: Time): WithdrawalRequest {
    wr.(status := target, note := note, processedAt := Stamp(target, wr.processedAt, now))
  }

  /** The owner after a refund of the request's amount (a missing amount counts as zero). */
  function Refunded(u: User, wr: WithdrawalRequest): User {
    u.(walletBalance := u.walletBalance + wr.amount.GetOr(0))
  }

  /** An update is accepted exactly for the seven pairs of the table: current status taken
      case-insensitively, target one of the six statuses. */
  lemma CheckAcceptsExactlyTable(current: string, target: string)
    ensures Check(current, target).None? <==> (Lower(current), target) in AcceptedPairs
  {
    var c := Lower(current);
    if (c, target) in AcceptedPairs {
      assert c in Transitions && target in Transitions[c];
      assert target in Statuses;
      assert c !in FinalStatuses;
    }
  }

  /** A target outside the six statuses is refused whatever the current status. */
  lemma UnknownTargetRefused(current: string, target: string)
    requires target !in Statuses
    ensures Check(current, target) == Some(InvalidStatus)
  {
  }

  /** A request whose status is final, in any letter case, is refused every update. */
  lemma FinalRefused(current: string, target: string)
    requires Lower(current) in FinalStatuses
    ensures Check(current, target).Some?
    ensures target in Statuses ==> Check(current, target) == Some(AlreadyFinal)
  {
  }

  /** In particular a request `is_final` recognises stays as it is. */
  lemma IsFinalRefused(wr: WithdrawalRequest, target: string)
    requires IsFinal(wr)
    ensures Check(wr.status, target).Some?
  {
    LowerOfLowerCase(wr.status);
  }

  /** No status can be set to itself, and a processing request cannot be rejected. */
  lemma NoSelfLoopNoLateReject(current: string)
    ensures Check(current, Lower(current)).Some?
    ensures Check(Processing, Rejected).Some?
  {
    CheckAcceptsExactlyTable(current, Lower(current));
    CheckAcceptsExactlyTable(Processing, Rejected);
    LowerOfLowerCase(Processing);
  }

  /** After an accepted update the request holds the target status, and the stamp follows the
      target's rule. */
  lemma AppliedCarriesTarget(wr: WithdrawalRequest, target: string, note: Option<string>, now: Time)
    ensures Applied(wr, target, note, now).status == target
    ensures Applied(wr, target, note, now).note == note
    ensures target in {Paid, Failed, Rejected} ==> Applied(wr, target, note, now).processedAt == Some(now)
    ensures target in {Approved, Processing} ==>
      Applied(wr, target, note, now).processedAt == if wr.processedAt.Some? then wr.processedAt else Some(now)
    ensures Applied(wr, target, note, now).amount == wr.amount && Applied(wr, target, note, now).userId == wr.userId
  {
  }

  /** The refund raises the owner's balance by exactly the amount. */
  lemma RefundExact(u: User, wr: WithdrawalRequest)
    ensures Refunded(u, wr).walletBalance - u.walletBalance == wr.amount.GetOr(0)
    ensures Refunded(u, wr).(walletBalance := u.walletBalance) == u
  {
  }

  /** The two tables the update touches. */
  datatype State = State(withdrawals: map<int, WithdrawalRequest>, users: map<int, User>)

  /** What one call of the handler does to the state, as a function of the state before. */
  function Update(st: State, withdrawalId: int, target: string, note: Option<string>, now: Time): (Outcome, State)
  {
    if withdrawalId !in st.withdrawals then (Refused(NotFound), st)
    else
      var wr := st.withdrawals[withdrawalId];
      var check := Check(wr.status, target);
      if check.Some? then (Refused(check.value), st)
      else if target == Rejected && wr.userId !in st.users then (Refused(UpdateFailed), st)
      else
        var users := if target == Rejected then st.users[wr.userId := Refunded(st.users[wr.userId], wr)]
                     else st.users;
        (Updated(target), State(st.withdrawals[withdrawalId := Applied(wr, target, note, now)], users))
  }

  /** `update_withdrawal_status` as the program stands. By the time the rejection branch calls
      `db.session.begin()`, `get_or_404` has already begun the session's transaction, so that
      call raises `InvalidRequestError`; the refund also adds a `Decimal` to the float
      `wallet_balance`, a `TypeError`. Either way the `except` rolls back and reports the failure,
      so a rejection is never stored. `Update` is the intended handler. */
  function UpdateAsWritten(st: State, withdrawalId: int, target: string, note: Option<string>, now: Time)
      : (r: (Outcome, State))
    ensures target == Rejected ==> r.0 != Updated(Rejected) && r.1 == st
    ensures target != Rejected ==> r == Update(st, withdrawalId, target, note, now)
  {
    if target == Rejected && withdrawalId in st.withdrawals && Check(st.withdrawals[withdrawalId].status, target).None?
    then (Refused(UpdateFailed), st)
    else Update(st, withdrawalId, target, note, now)
  }

  /** The discrepancy: for a request the table lets the operator reject, the intended handler
      refunds the owner, while the program as written fails and stores nothing. */
  lemma RejectFailsAsWritten(st: State, id: int, note: Option<string>, now: Time)
    requires id in st.withdrawals && st.withdrawals[id].userId in st.users
    requires Check(st.withdrawals[id].status, Rejected).None?
    ensures var (o, st2) := Update(st, id, Rejected, note, now); var u := st.withdrawals[id].userId;
      o == Updated(Rejected)
      && st2.users[u].walletBalance == st.users[u].walletBalance + st.withdrawals[id].amount.GetOr(0)
    ensures UpdateAsWritten(st, id, Rejected, note, now) == (Refused(UpdateFailed), st)
  {
    RefundExact(st.users[st.withdrawals[id].userId], st.withdrawals[id]);
  }

  /** A refused call changes nothing. */
  lemma RefusedChangesNothing(st: State, id: int, target: string, note: Option<string>, now: Time)
    ensures Update(st, id, target, note, now).0.Refused? ==> Update(st, id, target, note, now).1 == st
  {
  }

  /** An accepted call moves the request along one pair of the table to the submitted status,
      and changes no other request. */
  lemma AcceptedFollowsTable(st: State, id: int, target: string, note: Option<string>, now: Time)
    requires Update(st, id, target, note, now).0.Updated?
    ensures var (o, st2) := Update(st, id, target, note, now);
      id in st.withdrawals && id in st2.withdrawals
      && o.status == target && st2.withdrawals[id].status == o.status
      && (Lower(st.withdrawals[id].status), o.status) in AcceptedPairs
      && (forall k :: k in st.withdrawals && k != id ==> k in st2.withdrawals && st2.withdrawals[k] == st.withdrawals[k])
  {
    var wr := st.withdrawals[id];
    CheckAcceptsExactlyTable(wr.status, target);
  }

  /** Rejection refunds the owner by exactly the request's amount and touches no other user;
      every other accepted move leaves all wallets as they were. */
  lemma WalletEffects(st: State, id: int, target: string, note: Option<string>, now: Time)
    requires Update(st, id, target, note, now).0.Updated?
    ensures var (o, st2) := Update(st, id, target, note, now);
      var wr := st.withdrawals[id];
      st2.users.Keys == st.users.Keys
      && (o.status == Rejected ==>
            wr.userId in st.users
            && st2.users[wr.userId].walletBalance == st.users[wr.userId].walletBalance + wr.amount.GetOr(0)
            && forall k :: k in st.users && k != wr.userId ==> st2.users[k] == st.users[k])
      && (o.status != Rejected ==> st2.users == st.users)
  {
  }

  /** A request whose status is final (in any letter case) is never changed by a call. */
  lemma FinalUnchanged(st: State, id: int, target: string, note: Option<string>, now: Time)
    requires id in st.withdrawals && Lower(st.withdrawals[id].status) in FinalStatuses
    ensures Update(st, id, target, note, now) == (Refused(Check(st.withdrawals[id].status, target).value), st)
  {
    FinalRefused(st.withdrawals[id].status, target);
  }

  /** Rejecting an open request raises the owner's withdrawable balance by twice its amount: the
      refund adds the amount to the wallet, and the request, no longer open, stops holding it. */
  lemma RejectRaisesWithdrawableTwice(st: State, id: int, note: Option<string>, now: Time)
    requires Update(st, id, Rejected, note, now).0.Updated?
    requires st.withdrawals[id].status in ReservedStatuses
    ensures var st2 := Update(st, id, Rejected, note, now).1;
      var wr := st.withdrawals[id];
      var u := wr.userId;
      u in st.users && u in st2.users
      && WithdrawableBalance(u, st2.users[u].walletBalance, st2.withdrawals)
         == WithdrawableBalance(u, st.users[u].walletBalance, st.withdrawals) + 2 * wr.amount.GetOr(0)
  {
    var wr := st.withdrawals[id];
    var wr2 := Applied(wr, Rejected, note, now);
    PendingSumReplace(wr.userId, st.withdrawals, id, wr2);
    WalletEffects(st, id, Rejected, note, now);
  }

  /** Paying out or failing an open request leaves the wallet balance as it is, so the owner's
      withdrawable balance rises by the amount the request held. */
  lemma SettleReleasesHold(st: State, id: int, target: string, note: Option<string>, now: Time)
    requires target == Paid || target == Failed
    requires Update(st, id, target, note, now).0.Updated?
    requires st.withdrawals[id].status in ReservedStatuses
    ensures var st2 := Update(st, id, target, note, now).1;
      var wr := st.withdrawals[id];
      var u := wr.userId;
      st2.users == st.users
      && PendingSum(u, st2.withdrawals) == PendingSum(u, st.withdrawals) - wr.amount.GetOr(0)
  {
    var wr := st.withdrawals[id];
    PendingSumReplace(wr.userId, st.withdrawals, id, Applied(wr, target, note, now));
  }

  /** One submitted form: which request, and the two form fields. */
  datatype Call = Call(withdrawalId: int, statusField: Option<string>, noteField: Option<string>, now: Time)

  /** The effect of one call. */
  function Perform(st: State, c: Call): (Outcome, State) {
    Update(st, c.withdrawalId, NormStatus(c.statusField), NormNote(c.noteField), c.now)
  }

  /** The state after a sequence of calls, in order. */
  function Run(st: State, calls: seq<Call>): State
    decreases |calls|
  {
    if |calls| == 0 then st
    else
      var c := calls[0];
      Run(Perform(st, c).1, calls[1..])
  }

  /** A request in a final status keeps it, unchanged, under every later sequence of calls. */
  lemma {:induction false} FinalStaysFinal(st: State, calls: seq<Call>, id: int)
    requires id in st.withdrawals && Lower(st.withdrawals[id].status) in FinalStatuses
    ensures id in Run(st, calls).withdrawals && Run(st, calls).withdrawals[id] == st.withdrawals[id]
    decreases |calls|
  {
    if |calls| > 0 {
      var c := calls[0];
      var target, note := NormStatus(c.statusField), NormNote(c.noteField);
      var (o, st2) := Update(st, c.withdrawalId, target, note, c.now);
      if c.withdrawalId == id {
        FinalUnchanged(st, id, target, note, c.now);
      } else {
        RefusedChangesNothing(st, c.withdrawalId, target, note, c.now);
      }
      assert id in st2.withdrawals && st2.withdrawals[id] == st.withdrawals[id];
      FinalStaysFinal(st2, calls[1..], id);
    }
  }

  /** The checks `update_withdrawal_status` makes before it changes anything, in its order. */
  method CheckTransition(status: string, newStatus: string) returns (refusal: Option<Refusal>)
    ensures refusal == Check(status, newStatus)
  {
    if newStatus !in Statuses {
      return Some(InvalidStatus);
    }
    var current := Lower(status);
    if current in FinalStatuses {
      return Some(AlreadyFinal);
    }
    if current !in Transitions || newStatus !in Transitions[current] {
      return Some(InvalidTransition(current, newStatus));
    }
    return None;
  }

  /** `update_withdrawal_status`. */
  method UpdateWithdrawalStatus(db: Db, withdrawalId: int, statusField: Option<string>,
                                noteField: Option<string>, now: Time) returns (outcome: Outcome)
    modifies db`withdrawals, db`users
    ensures (outcome, State(db.withdrawals, db.users))
            == Update(State(old(db.withdrawals), old(db.users)), withdrawalId, NormStatus(statusField), NormNote(noteField), now)
  {
    if withdrawalId !in db.withdrawals {
      return Refused(NotFound);
    }
    var wr := db.withdrawals[withdrawalId];
    var newStatus := NormStatus(statusField);
    var note := NormNote(noteField);
    var refusal := CheckTransition(wr.status, newStatus);
    if refusal.Some? {
      return Refused(refusal.value);
    }
    outcome := ApplyUpdate(db, withdrawalId, newStatus, note, now);
  }

  /** The part of `update_withdrawal_status` after its checks have passed: the refund on a
      rejection, then the new status, note and stamp. */
  method ApplyUpdate(db: Db, withdrawalId: int, newStatus: string, note: Option<string>, now: Time)
      returns (outcome: Outcome)
    requires withdrawalId in db.withdrawals && Check(db.withdrawals[withdrawalId].status, newStatus).None?
    modifies db`withdrawals, db`users
    ensures (outcome, State(db.withdrawals, db.users))
            == Update(State(old(db.withdrawals), old(db.users)), withdrawalId, newStatus, note, now)
  {
    var wr := db.withdrawals[withdrawalId];
    ghost var original := wr;
    if newStatus == Rejected {
      if wr.userId !in db.users {
        return Refused(UpdateFailed);
      }
      var user := db.users[wr.userId];
      user := user.(walletBalance := user.walletBalance + wr.amount.GetOr(0));
      assert user == Refunded(db.users[wr.userId], original);
      db.users := db.users[wr.userId := user];
      wr := wr.(status := Rejected, note := note, processedAt := Some(now));
      assert wr == Applied(original, newStatus, note, now);
      db.withdrawals := db.withdrawals[withdrawalId := wr];
      return Updated(Rejected);
    }
    wr := wr.(status := newStatus, note := note);
    if newStatus == Paid || newStatus == Failed {
      wr := wr.(processedAt := Some(now));
    } else if wr.processedAt.None? && (newStatus == Approved || newStatus == Processing) {
      wr := wr.(processedAt := Some(now));
    }
    assert wr == Applied(original, newStatus, note, now);
    db.withdrawals := db.withdrawals[withdrawalId := wr];
    return Updated(newStatus);
  }
}
