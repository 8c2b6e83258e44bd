/** The status machines shared by bookings, payments and queue entries. */

/** Booking lifecycle: domain/booking-status.policy.ts. */
module BookingPolicy {
  datatype Status =
    | Draft | PendingPayment | Confirmed | CheckedIn | Waiting | Called
    | InService | Completed | Cancelled | Expired | NoShow

  /** Statuses whose booking holds a staff reservation. */
  predicate Blocking(s: Status) {
    s.PendingPayment? || s.Confirmed? || s.CheckedIn? || s.Waiting? || s.Called? || s.InService?
  }

  predicate Terminal(s: Status) {
    s.Completed? || s.Cancelled? || s.Expired? || s.NoShow?
  }

  predicate CanTransition(from: Status, to: Status) {
    match from
    case Draft => to.PendingPayment? || to.Confirmed?
    case PendingPayment => to.Confirmed? || to.Expired? || to.Cancelled?
    case Confirmed => to.CheckedIn? || to.Cancelled? || to.NoShow?
    case CheckedIn => to == Waiting
    case Waiting => to.Called? || to.NoShow?
    case Called => to.InService? || to.NoShow? || to.Waiting?
    case InService => to == Completed
    case _ => false
  }

  /** Statuses from which a customer or the business may still cancel. */
  predicate Cancellable(s: Status) {
    s.PendingPayment? || s.Confirmed?
  }
}

/** Payment lifecycle and refund accounting: domain/payment-status.policy.ts. */
module PaymentPolicy {
  datatype Status =
    | Pending | Paid | Failed | Expired | Cancelled
    | RefundPending | PartiallyRefunded | Refunded

  predicate CanTransition(from: Status, to: Status) {
    match from
    case Pending => to.Paid? || to.Failed? || to.Expired? || to.Cancelled?
    case Paid => to == RefundPending
    case RefundPending => to.PartiallyRefunded? || to.Refunded?
    case PartiallyRefunded => to.RefundPending? || to.Refunded?
    case _ => false
  }

  /** Statuses in which the money has been collected. */
  predicate Collected(s: Status) {
    s.Paid? || s.RefundPending? || s.PartiallyRefunded? || s.Refunded?
  }

  /** Statuses of a payment that ended without being collected. */
  predicate Lost(s: Status) {
    s.Failed? || s.Expired? || s.Cancelled?
  }

  /** Statuses from which a refund may be requested. */
  predicate Refundable(s: Status) {
    s.Paid? || s.PartiallyRefunded?
  }

  /** refund_pending, partially_refunded, refunded, failed and cancelled. */
  datatype RefundStatus = Requested | Partial | Done | Rejected | Withdrawn

  /**
   * Who opened a refund: the service itself for a late success, or someone on request. The
   * reason code of a requested refund is free text of the client; `lateCode` says that it is
   * the `late_payment` which the service uses for its own.
   */
  datatype Origin = Automatic | OnRequest(lateCode: bool)

  datatype Refund = Refund(status: RefundStatus, amount: int, origin: Origin, requestedAt: int)

  /** The row carries the reason code `late_payment`, all that the database shows of its origin. */
  predicate LateCoded(r: Refund) { r.origin.Automatic? || r.origin.lateCode }

  predicate Completed(r: Refund) { r.status.Done? || r.status.Partial? }

  predicate Counting(r: Refund) { Completed(r) || r.status == Requested }

  function SumCompleted(refunds: seq<Refund>): int {
    if refunds == [] then 0
    else SumCompleted(refunds[..|refunds| - 1])
         + (if Completed(refunds[|refunds| - 1]) then refunds[|refunds| - 1].amount else 0)
  }

  /** Money that refunds hold or have taken. */
  function Held(refunds: seq<Refund>): int {
    if refunds == [] then 0
    else Held(refunds[..|refunds| - 1])
         + (if Counting(refunds[|refunds| - 1]) then refunds[|refunds| - 1].amount else 0)
  }

  /** The existence check of refundLatePayment. */
  predicate SomeLateCoded(refunds: seq<Refund>) {
    exists i :: 0 <= i < |refunds| && LateCoded(refunds[i])
  }

  predicate SomeRequested(refunds: seq<Refund>) {
    exists i :: 0 <= i < |refunds| && refunds[i].status == Requested
  }

  function AvailableRefundable(paid: int, refunds: seq<Refund>): int {
    if paid - Held(refunds) > 0 then paid - Held(refunds) else 0
  }

  /** Aggregate payment status implied by the refund rows. */
  function StatusAfterRefunds(paid: int, refunds: seq<Refund>): Status {
    if SomeRequested(refunds) then RefundPending
    else if SumCompleted(refunds) <= 0 then Paid
    else if SumCompleted(refunds) >= paid then Refunded
    else PartiallyRefunded
  }

  // Facts about the sums.

  lemma {:induction false} HeldSplits(refunds: seq<Refund>)
    requires !SomeRequested(refunds)
    ensures Held(refunds) == SumCompleted(refunds)
  {
    if refunds != [] {
      assert refunds[|refunds| - 1].status != Requested;
      var rest := refunds[..|refunds| - 1];
      assert forall i :: 0 <= i < |rest| ==> rest[i] == refunds[i];
      HeldSplits(rest);
    }
  }

  lemma {:induction false} HeldNonNegative(refunds: seq<Refund>)
    requires forall i :: 0 <= i < |refunds| ==> refunds[i].amount > 0
    ensures 0 <= SumCompleted(refunds) <= Held(refunds)
    ensures forall i :: 0 <= i < |refunds| && Counting(refunds[i]) ==> Held(refunds) >= refunds[i].amount
  {
    if refunds != [] {
      var rest := refunds[..|refunds| - 1];
      assert forall i :: 0 <= i < |rest| ==> rest[i] == refunds[i];
      HeldNonNegative(rest);
    }
  }

  lemma HeldAppend(refunds: seq<Refund>, r: Refund)
    ensures Held(refunds + [r]) == Held(refunds) + if Counting(r) then r.amount else 0
    ensures SumCompleted(refunds + [r]) == SumCompleted(refunds) + if Completed(r) then r.amount else 0
  {
    assert (refunds + [r])[..|refunds|] == refunds;
  }

  /** Settling a requested refund moves its amount from pending to completed. */
  lemma {:induction false} SettledSums(refunds: seq<Refund>, i: nat)
    requires i < |refunds| && refunds[i].status == Requested
    ensures Held(refunds[i := refunds[i].(status := Done)]) == Held(refunds)
    ensures SumCompleted(refunds[i := refunds[i].(status := Done)]) == SumCompleted(refunds) + refunds[i].amount
  {
    var after := refunds[i := refunds[i].(status := Done)];
    var last := |refunds| - 1;
    if i == last {
      assert after[..last] == refunds[..last];
    } else {
      SettledSums(refunds[..last], i);
      assert after[..last] == refunds[..last][i := refunds[i].(status := Done)];
    }
  }
}

/** Queue lifecycle and its mirror in the booking: queue/domain/queue-status.policy.ts. */
module QueuePolicy {
  import BP = BookingPolicy

  datatype Status = Waiting | Called | Skipped | InService | Completed | Cancelled | NoShow

  /** Statuses that occupy the active queue. */
  predicate Active(s: Status) { s.Waiting? || s.Called? || s.InService? || s.Skipped? }

  /** Entries a customer still counts as ahead. */
  predicate CountsAhead(s: Status) { s.Waiting? || s.Called? || s.InService? }

  predicate Reorderable(s: Status) { s.Waiting? || s.Skipped? }

  predicate CanTransition(from: Status, to: Status) {
    match from
    case Waiting => to.Called? || to.Cancelled?
    case Called => to.InService? || to.Skipped? || to.NoShow? || to.Cancelled?
    case Skipped => to.Waiting? || to.NoShow?
    case InService => to == Completed
    case _ => false
  }

  function BookingStatusFor(s: Status): BP.Status {
    match s
    case Waiting => BP.Waiting
    case Called => BP.Called
    case Skipped => BP.Waiting
    case InService => BP.InService
    case Completed => BP.Completed
    case Cancelled => BP.Cancelled
    case NoShow => BP.NoShow
  }
}
