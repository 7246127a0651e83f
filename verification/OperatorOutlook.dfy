/**
 * What operators get to see of the spend requests that can actually arise: the two workflows
 * taken together.
 */
module OperatorOutlook {
  import opened Basics
  import S = SpendLifecycle
  import O = OperatorCases

  function RequestText(status: S.RequestStatus): O.StatusText {
    match status
    case Draft => "DRAFT"
    case Submitted => "SUBMITTED"
    case Approved => "APPROVED"
    case Rejected => "REJECTED"
    case Executing => "EXECUTING"
    case Completed => "COMPLETED"
    case Failed => "FAILED"
    case Canceled => "CANCELED"
  }

  function PaymentText(status: S.PaymentStatus): O.StatusText {
    match status
    case PaymentPending => "PENDING"
    case Authorized => "AUTHORIZED"
    case Captured => "CAPTURED"
    case PaymentFailed => "FAILED"
    case Voided => "VOIDED"
  }

  function ReceiptText(status: S.ReceiptStatus): O.StatusText {
    match status
    case ReceiptPending => "PENDING"
    case ReceiptAvailable => "AVAILABLE"
    case ReceiptFailed => "FAILED"
  }

  function FulfilmentText(fulfilment: S.Fulfilment): O.StatusText {
    match fulfilment
    case Delivered => "DELIVERED"
    case NotDelivered => "FAILED"
  }

  /** What an operator sync reads of a request row. */
  function SignalOf(r: S.Request): O.Signal {
    O.Signal(
      RequestText(r.status),
      if r.payment.Some? then Some(PaymentText(r.payment.value.status)) else None,
      if r.receipt.Some? then Some(ReceiptText(r.receipt.value.status)) else None,
      if r.fulfilment.Some? then Some(FulfilmentText(r.fulfilment.value)) else None,
      r.paused,
      if r.payment.Some? then |r.payment.value.attempts| else 0)
  }

  function CategoryOf(r: S.Request): Option<O.Category> {
    var c := O.Classify(SignalOf(r));
    if c.Some? then Some(c.value.category) else None
  }

  /** The case a consistent request gets, in terms of its payment alone. */
  function ExpectedCategory(r: S.Request): Option<O.Category> {
    if r.paused then Some(O.RequestPaused)
    else if r.payment.None? then None
    else
      match r.payment.value.status
      case PaymentPending => None
      case Authorized => if r.status == S.Failed then None else Some(O.SettlementDelay)
      case Captured => if r.fulfilment.None? then Some(O.SellerConfirmationDelay) else Some(O.ReceiptPending)
      case PaymentFailed => Some(O.ReceiptFailure)
      case Voided => Some(O.ReceiptFailure)
  }

  lemma ConsistentRequestsAreClassified(retry: S.PaymentStatus -> bool, r: S.Request)
    requires S.RequestInv(retry, r)
    ensures CategoryOf(r) == ExpectedCategory(r)
  {
    if r.payment.Some? {
      match r.payment.value.status
      case PaymentPending =>
      case Authorized =>
      case Captured =>
      case PaymentFailed =>
      case Voided =>
    }
  }

  /**
   * On every run, whichever payments are retried, exactly these cases arise.  In particular no
   * request is ever filed as a payment failure or as exhausted retries: a failed payment always
   * comes with a failed receipt, which is looked at first.
   */
  lemma {:induction false} CasesThatArise(retry: S.PaymentStatus -> bool, events: seq<S.Event>, id: nat)
    requires id < |S.Run(retry, [], events)|
    ensures CategoryOf(S.Run(retry, [], events)[id]) == ExpectedCategory(S.Run(retry, [], events)[id])
    ensures CategoryOf(S.Run(retry, [], events)[id]) !in {Some(O.PaymentFailure), Some(O.PaymentRetryExhausted)}
  {
    S.RunsKeepInv(retry, events);
    ConsistentRequestsAreClassified(retry, S.Run(retry, [], events)[id]);
  }

  /**
   * A captured and delivered request stays on the operators' list as a pending receipt in every
   * continuation in which it is not paused: its receipt never becomes available.
   */
  lemma {:induction false} DeliveredRequestsStayListed(retry: S.PaymentStatus -> bool, events: seq<S.Event>, later: seq<S.Event>, id: nat)
    requires id < |S.Run(retry, [], events)|
    requires var r := S.Run(retry, [], events)[id];
             r.status == S.Completed && r.payment.Some? && r.payment.value.status == S.Captured
    ensures id < |S.Run(retry, [], events + later)|
    ensures var q := S.Run(retry, [], events + later)[id];
            CategoryOf(q) == Some(if q.paused then O.RequestPaused else O.ReceiptPending)
  {
    S.FinalRequestsStay(retry, events, later, id);
    S.RunsKeepInv(retry, events + later);
    ConsistentRequestsAreClassified(retry, S.Run(retry, [], events + later)[id]);
  }

  /** Such requests occur: one is ordered, captured and delivered, and is listed for good unless paused. */
  lemma DeliveredRequestsOccur(retry: S.PaymentStatus -> bool, later: seq<S.Event>)
    ensures var requests := S.Run(retry, [], [S.ORDER, S.Pay(S.Captured), S.RecordFulfilment("seller", 0, true)] + later);
            && 0 < |requests|
            && CategoryOf(requests[0]) == Some(if requests[0].paused then O.RequestPaused else O.ReceiptPending)
  {
    S.DeliveredReceiptsStayPending(retry, later);
    S.RunsKeepInv(retry, [S.ORDER, S.Pay(S.Captured), S.RecordFulfilment("seller", 0, true)] + later);
    var r := S.Run(retry, [], [S.ORDER, S.Pay(S.Captured), S.RecordFulfilment("seller", 0, true)] + later)[0];
    ConsistentRequestsAreClassified(retry, r);
  }

  /** Requeueing is only ever offered for requests that payment control refuses to pay again. */
  lemma {:induction false} RequeueingNeverPays(events: seq<S.Event>, id: nat, status: O.CaseStatus, rail: S.Rail, railAccepts: bool)
    requires id < |S.Run(S.RetryEligible, [], events)|
    requires O.Requeue in O.AvailableActions(status, SignalOf(S.Run(S.RetryEligible, [], events)[id]))
    ensures !S.PaymentAllowed(S.RetryEligible, S.Run(S.RetryEligible, [], events)[id], rail, railAccepts)
  {
    S.PaymentsAreNeverRetried(events, id);
  }
}
