/**
 * Spend requests from creation to completion: idempotent creation under a policy, approval,
 * payment attempts with receipts, seller fulfilment, and operators pausing and releasing them.
 */
module SpendLifecycle {
  import opened Basics
  import opened BuyerPolicy
  import Labels

  // ---------------------------------------------------------------------------------------------
  // Data: requests are numbered in the order they were created
  // ---------------------------------------------------------------------------------------------

  datatype RequestStatus = Draft | Submitted | Approved | Rejected | Executing | Completed | Failed | Canceled

  datatype ApprovalStatus = ApprovalPending | ApprovalGranted | ApprovalDenied | ApprovalExpired

  datatype PaymentStatus = PaymentPending | Authorized | Captured | PaymentFailed | Voided

  datatype Rail = InternalSimulated | Stripe | ProgrammableUsdc

  datatype Attempt = Attempt(number: nat, rail: Rail, status: PaymentStatus, reference: Option<string>)

  /** The attempts are kept oldest first. */
  datatype Payment = Payment(rail: Rail, status: PaymentStatus, reference: Option<string>, attempts: seq<Attempt>)

  datatype ReceiptStatus = ReceiptPending | ReceiptAvailable | ReceiptFailed

  datatype Receipt = Receipt(status: ReceiptStatus, storageKey: Option<string>)

  datatype Fulfilment = Delivered | NotDelivered

  datatype Request = Request(
    organization: string, key: Option<string>, agent: string, title: string, amount: int, category: string,
    service: Option<string>, seller: string, status: RequestStatus, approval: Option<ApprovalStatus>,
    payment: Option<Payment>, receipt: Option<Receipt>, fulfilment: Option<Fulfilment>, paused: bool)

  /** A creation request as validated by its schema: texts trimmed, a key never blank. */
  datatype Input = Input(
    agent: string, policy: Option<string>, seller: Option<string>, title: string, amount: int, category: string,
    service: Option<string>, key: Option<string>)

  datatype Agent = Agent(organization: string, active: bool, policy: Option<string>)

  datatype Policy = Policy(organization: string, active: bool, rules: Rules)

  /** The rows a creation reads besides requests; other workflows change them freely. */
  datatype Directory = Directory(agents: map<string, Agent>, sellers: set<string>, policies: map<string, Policy>)

  datatype Refusal = KeyBoundToOtherPayload | NoAgent | NoSeller | NoPolicy | PolicyInactive

  // ---------------------------------------------------------------------------------------------
  // Creation
  // ---------------------------------------------------------------------------------------------

  /** The request already filed under a key of an organization. */
  function FindByKey(requests: seq<Request>, organization: string, key: string): (id: Option<nat>)
    ensures id.Some? ==> id.value < |requests| && requests[id.value].organization == organization && requests[id.value].key == Some(key)
    ensures id.None? ==> forall i :: 0 <= i < |requests| ==> !(requests[i].organization == organization && requests[i].key == Some(key))
  {
    if requests == [] then None
    else
      var front, last := requests[..|requests| - 1], requests[|requests| - 1];
      var earlier := FindByKey(front, organization, key);
      if earlier.Some? then earlier
      else if last.organization == organization && last.key == Some(key) then Some(|requests| - 1)
      else
        assert forall i :: 0 <= i < |front| ==> front[i] == requests[i];
        None
  }

  predicate SamePayload(r: Request, input: Input) {
    r.agent == input.agent && r.amount == input.amount && r.title == input.title
    && r.category == input.category && r.service == input.service
  }

  /** The new request, or why none is created. */
  function NewRequest(organization: string, input: Input, directory: Directory): Result<Request, Refusal> {
    if input.agent !in directory.agents || directory.agents[input.agent].organization != organization then Refused(NoAgent)
    else if input.seller.None? || input.seller.value !in directory.sellers then Refused(NoSeller)
    else
      var agent := directory.agents[input.agent];
      var policyId := if input.policy.Some? then input.policy else agent.policy;
      if policyId.None? || policyId.value !in directory.policies
         || directory.policies[policyId.value].organization != organization then Refused(NoPolicy)
      else if !directory.policies[policyId.value].active then Refused(PolicyInactive)
      else
        var verdict := Evaluate(agent.active, input.amount, input.seller.value, input.category, input.service,
                                directory.policies[policyId.value].rules);
        var status := match verdict case Denied => Rejected case NeedsApproval => Submitted case AutoApproved => Approved;
        var approval := match verdict case Denied => None case NeedsApproval => Some(ApprovalPending) case AutoApproved => Some(ApprovalGranted);
        Ok(Request(organization, input.key, input.agent, input.title, input.amount, input.category, input.service,
                   input.seller.value, status, approval, None, None, None, false))
  }

  /** The id answered to a creation and the requests after it. */
  function Create(requests: seq<Request>, organization: string, input: Input, directory: Directory)
    : (result: (Result<nat, Refusal>, seq<Request>))
  {
    var existing := if input.key.Some? then FindByKey(requests, organization, input.key.value) else None;
    if existing.Some? then
      (if SamePayload(requests[existing.value], input) then Ok(existing.value) else Refused(KeyBoundToOtherPayload), requests)
    else
      match NewRequest(organization, input, directory)
      case Refused(why) => (Refused(why), requests)
      case Ok(request) => (Ok(|requests|), requests + [request])
  }

  // ---------------------------------------------------------------------------------------------
  // Decision, payment, fulfilment, pause
  // ---------------------------------------------------------------------------------------------

  predicate Executable(status: RequestStatus) {
    status == Approved || status == Executing
  }

  /** Statuses from which the source retries a payment. */
  predicate RetryEligible(status: PaymentStatus) {
    status == PaymentFailed || status == Voided
  }

  /**
   * Whether payment control executes a payment.  `railAccepts` is the rail's own say: Stripe is
   * configured, or programmable settlement is enabled, allowed, and both wallets are verified.
   */
  predicate PaymentAllowed(retry: PaymentStatus -> bool, r: Request, rail: Rail, railAccepts: bool) {
    && !r.paused
    && Executable(r.status)
    && (r.payment.Some? ==>
          && retry(r.payment.value.status)
          && r.payment.value.rail == rail
          && |r.payment.value.attempts| < MAXIMUM_ATTEMPTS)
    && railAccepts
  }

  function ResolveReceipt(payment: PaymentStatus, fulfilment: Option<Fulfilment>): ReceiptStatus {
    if payment == PaymentFailed || payment == Voided || fulfilment == Some(NotDelivered) then ReceiptFailed
    else if payment == Captured && fulfilment == Some(Delivered) then ReceiptAvailable
    else ReceiptPending
  }

  function NextAttemptNumber(payment: Option<Payment>): nat {
    if payment.Some? && payment.value.attempts != [] then payment.value.attempts[|payment.value.attempts| - 1].number + 1 else 1
  }

  function StorageKey(id: nat): string {
    "receipts/" + Labels.Decimal(id) + ".json"
  }

  /** The request after a rail answered `outcome` with `reference`. */
  function Paid(id: nat, r: Request, rail: Rail, outcome: PaymentStatus, reference: Option<string>): Request {
    var attempt := Attempt(NextAttemptNumber(r.payment), rail, outcome, reference);
    var attempts := if r.payment.Some? then r.payment.value.attempts else [];
    var receipt := ResolveReceipt(outcome, r.fulfilment);
    r.(status := if outcome == PaymentFailed || outcome == Voided then Failed
                 else if outcome == Captured && r.fulfilment == Some(Delivered) then Completed
                 else if outcome == Captured && r.fulfilment == Some(NotDelivered) then Failed
                 else Executing,
       payment := Some(Payment(rail, outcome, reference, attempts + [attempt])),
       receipt := Some(Receipt(receipt, if receipt != ReceiptPending then Some(StorageKey(id)) else None)))
  }

  function Decided(r: Request, approve: bool): Request {
    r.(status := if approve then Approved else Rejected,
       approval := Some(if approve then ApprovalGranted else ApprovalDenied))
  }

  function Fulfilled(r: Request, delivered: bool): Request {
    r.(status := if delivered then Completed else Failed, fulfilment := Some(if delivered then Delivered else NotDelivered))
  }

  datatype Event =
    | CreateRequest(organization: string, input: Input, directory: Directory)
    | DecideApproval(organization: string, id: nat, approve: bool)
    | ExecutePayment(scope: Option<string>, id: nat, rail: Rail, railAccepts: bool, outcome: PaymentStatus, reference: Option<string>)
    | RecordFulfilment(seller: string, id: nat, delivered: bool)
    | SetPaused(id: nat, paused: bool)

  /** The request with number `e.id` after the event, unchanged when the event is refused. */
  function Changed(retry: PaymentStatus -> bool, r: Request, e: Event): Request
    requires !e.CreateRequest?
  {
    match e
    case DecideApproval(organization, _, approve) =>
      if r.organization != organization || r.approval != Some(ApprovalPending) then r else Decided(r, approve)
    case ExecutePayment(scope, id, rail, railAccepts, outcome, reference) =>
      if (scope.Some? && scope.value != r.organization) || !PaymentAllowed(retry, r, rail, railAccepts) then r
      else Paid(id, r, rail, outcome, reference)
    case RecordFulfilment(seller, _, delivered) =>
      if r.seller != seller || !Executable(r.status) then r else Fulfilled(r, delivered)
    case SetPaused(_, paused) => r.(paused := paused)
  }

  function Exec(retry: PaymentStatus -> bool, requests: seq<Request>, e: Event): seq<Request> {
    match e
    case CreateRequest(organization, input, directory) => Create(requests, organization, input, directory).1
    case DecideApproval(_, _, _) | ExecutePayment(_, _, _, _, _, _) | RecordFulfilment(_, _, _) | SetPaused(_, _) =>
      if e.id < |requests| then requests[e.id := Changed(retry, requests[e.id], e)] else requests
  }

  function Run(retry: PaymentStatus -> bool, requests: seq<Request>, events: seq<Event>): seq<Request> {
    if events == [] then requests
    else Exec(retry, Run(retry, requests, events[..|events| - 1]), events[|events| - 1])
  }

  // ---------------------------------------------------------------------------------------------
  // Idempotent creation
  // ---------------------------------------------------------------------------------------------

  /** The columns no operation rewrites. */
  predicate SameOrigin(r: Request, q: Request) {
    && r.organization == q.organization && r.key == q.key && r.agent == q.agent && r.title == q.title
    && r.amount == q.amount && r.category == q.category && r.service == q.service && r.seller == q.seller
  }

  ghost predicate OriginsRemain(requests: seq<Request>, later: seq<Request>) {
    |requests| <= |later| && forall i :: 0 <= i < |requests| ==> SameOrigin(requests[i], later[i])
  }

  lemma {:induction false} OriginsRemainInRuns(retry: PaymentStatus -> bool, requests: seq<Request>, events: seq<Event>)
    ensures OriginsRemain(requests, Run(retry, requests, events))
  {
    if events != [] {
      OriginsRemainInRuns(retry, requests, events[..|events| - 1]);
      ExecKeepsOrigins(retry, Run(retry, requests, events[..|events| - 1]), events[|events| - 1]);
      hide Exec;
    }
  }

  lemma ExecKeepsOrigins(retry: PaymentStatus -> bool, requests: seq<Request>, e: Event)
    ensures OriginsRemain(requests, Exec(retry, requests, e))
  {
  }

  ghost predicate KeysUnique(requests: seq<Request>) {
    forall i, j :: 0 <= i < j < |requests| && requests[i].organization == requests[j].organization && requests[i].key.Some? ==>
      requests[i].key != requests[j].key
  }

  lemma ExecKeepsKeysUnique(retry: PaymentStatus -> bool, requests: seq<Request>, e: Event)
    requires KeysUnique(requests)
    ensures KeysUnique(Exec(retry, requests, e))
  {
    var later := Exec(retry, requests, e);
    if |later| == |requests| {
      forall i | 0 <= i < |requests| ensures SameOrigin(requests[i], later[i]) {}
    }
  }

  /** On every run an organization has at most one request per idempotency key. */
  lemma {:induction false} KeysStayUnique(retry: PaymentStatus -> bool, events: seq<Event>)
    ensures KeysUnique(Run(retry, [], events))
  {
    if events != [] {
      KeysStayUnique(retry, events[..|events| - 1]);
      ExecKeepsKeysUnique(retry, Run(retry, [], events[..|events| - 1]), events[|events| - 1]);
    }
  }

  /**
   * After a creation under a key was answered with an id, and after anything else has happened
   * since, asking again under that key changes nothing: with the same payload the same id is
   * answered, with another agent, amount, title, category or service key the call is refused.
   */
  lemma {:induction false} ReplaysAreIdempotent(retry: PaymentStatus -> bool, before: seq<Event>, organization: string, input: Input,
                             directory: Directory, since: seq<Event>, replay: Input, laterDirectory: Directory)
    requires input.key.Some? && replay.key == input.key
    requires Create(Run(retry, [], before), organization, input, directory).0.Ok?
    ensures var (answer, created) := Create(Run(retry, [], before), organization, input, directory);
            var later := Run(retry, created, since);
            var (again, after) := Create(later, organization, replay, laterDirectory);
            && after == later
            && again == if replay.agent == input.agent && replay.amount == input.amount && replay.title == input.title
                           && replay.category == input.category && replay.service == input.service
                        then answer else Refused(KeyBoundToOtherPayload)
  {
    var requests := Run(retry, [], before);
    var created := Create(requests, organization, input, directory).1;
    KeysStayUnique(retry, before);
    CreateKeepsKeysUnique(requests, organization, input, directory);
    AnsweredRowIsFiled(requests, organization, input, directory);
    OriginsRemainInRuns(retry, created, since);
    KeysUniqueInRuns(retry, created, since);
    ReplayFindsRow(Run(retry, created, since), Create(requests, organization, input, directory).0.value, organization, input, replay, laterDirectory);
  }

  /** An answered creation leaves the answered row filed under the key with the asked payload. */
  lemma AnsweredRowIsFiled(requests: seq<Request>, organization: string, input: Input, directory: Directory)
    requires input.key.Some? && Create(requests, organization, input, directory).0.Ok?
    ensures var (answer, created) := Create(requests, organization, input, directory);
            && answer.value < |created|
            && created[answer.value].organization == organization && created[answer.value].key == input.key
            && SamePayload(created[answer.value], input)
  {
  }

  lemma ReplayFindsRow(requests: seq<Request>, id: nat, organization: string, input: Input, replay: Input, directory: Directory)
    requires KeysUnique(requests) && id < |requests| && replay.key.Some?
    requires requests[id].organization == organization && requests[id].key == replay.key && SamePayload(requests[id], input)
    ensures Create(requests, organization, replay, directory) ==
            (if replay.agent == input.agent && replay.amount == input.amount && replay.title == input.title
                && replay.category == input.category && replay.service == input.service
             then Ok(id) else Refused(KeyBoundToOtherPayload), requests)
  {
    var found := FindByKey(requests, organization, replay.key.value);
    assert found == Some(id);
  }

  lemma CreateKeepsKeysUnique(requests: seq<Request>, organization: string, input: Input, directory: Directory)
    requires KeysUnique(requests)
    ensures KeysUnique(Create(requests, organization, input, directory).1)
  {
  }

  lemma {:induction false} KeysUniqueInRuns(retry: PaymentStatus -> bool, requests: seq<Request>, events: seq<Event>)
    requires KeysUnique(requests)
    ensures KeysUnique(Run(retry, requests, events))
  {
    if events != [] {
      KeysUniqueInRuns(retry, requests, events[..|events| - 1]);
      ExecKeepsKeysUnique(retry, Run(retry, requests, events[..|events| - 1]), events[|events| - 1]);
    }
  }

  // ---------------------------------------------------------------------------------------------
  // The invariant of every request
  // ---------------------------------------------------------------------------------------------

  ghost predicate PaymentInv(retry: PaymentStatus -> bool, p: Payment) {
    && 1 <= |p.attempts| <= MAXIMUM_ATTEMPTS
    && (forall i :: 0 <= i < |p.attempts| ==> p.attempts[i].number == i + 1 && p.attempts[i].rail == p.rail)
    && (forall i :: 0 <= i < |p.attempts| - 1 ==> retry(p.attempts[i].status))
    && p.attempts[|p.attempts| - 1].status == p.status
    && p.attempts[|p.attempts| - 1].reference == p.reference
  }

  ghost predicate RequestInv(retry: PaymentStatus -> bool, r: Request) {
    && r.status != Draft && r.status != Canceled
    && (r.approval == Some(ApprovalPending) <==> r.status == Submitted)
    && (r.status in {Approved, Executing, Completed, Failed} ==> r.approval == Some(ApprovalGranted))
    && (r.status == Rejected ==> r.approval in {None, Some(ApprovalDenied)})
    && (r.payment.Some? ==> r.approval == Some(ApprovalGranted) && PaymentInv(retry, r.payment.value))
    && (r.payment.Some? <==> r.receipt.Some?)
    && (r.fulfilment == Some(Delivered) <==> r.status == Completed)
    && (r.fulfilment == Some(NotDelivered) ==> r.status == Failed)
    && (r.status == Executing ==> r.payment.Some?)
    && (r.status == Approved ==> r.payment.None?)
    && (r.payment.Some? && r.payment.value.status in {PaymentFailed, Voided} ==> r.status == Failed)
    && (r.status == Failed && r.fulfilment.None? ==> r.payment.Some? && r.payment.value.status in {PaymentFailed, Voided})
    && (r.receipt.Some? ==>
          && r.receipt.value.status == (if r.payment.value.status in {PaymentFailed, Voided} then ReceiptFailed else ReceiptPending)
          && (r.receipt.value.storageKey.Some? <==> r.receipt.value.status in {ReceiptAvailable, ReceiptFailed}))
  }

  lemma ChangedKeepsInv(retry: PaymentStatus -> bool, r: Request, e: Event)
    requires !e.CreateRequest? && RequestInv(retry, r)
    ensures RequestInv(retry, Changed(retry, r, e))
  {
    if e.ExecutePayment? && Changed(retry, r, e) != r {
      var p := Changed(retry, r, e).payment.value;
      assert PaymentInv(retry, p);
    }
  }

  lemma {:induction false} RunsKeepInv(retry: PaymentStatus -> bool, events: seq<Event>)
    ensures forall i :: 0 <= i < |Run(retry, [], events)| ==> RequestInv(retry, Run(retry, [], events)[i])
  {
    if events != [] {
      var requests, e := Run(retry, [], events[..|events| - 1]), events[|events| - 1];
      RunsKeepInv(retry, events[..|events| - 1]);
      if !e.CreateRequest? && e.id < |requests| {
        ChangedKeepsInv(retry, requests[e.id], e);
      }
    }
  }

  // ---------------------------------------------------------------------------------------------
  // Theorems over all runs
  // ---------------------------------------------------------------------------------------------

  /**
   * On every run, whichever payment statuses are retried: an approval is pending exactly while the
   * request is submitted; payments exist only under a granted approval; a completed request has a
   * recorded delivery; a receipt has a storage key exactly when it is available or failed.
   */
  lemma {:induction false} RequestsStayConsistent(retry: PaymentStatus -> bool, events: seq<Event>, id: nat)
    requires id < |Run(retry, [], events)|
    ensures var r := Run(retry, [], events)[id];
            && (r.approval == Some(ApprovalPending) <==> r.status == Submitted)
            && (r.payment.Some? ==> r.approval == Some(ApprovalGranted))
            && (r.status == Completed <==> r.fulfilment == Some(Delivered))
            && (r.receipt.Some? ==> (r.receipt.value.storageKey.Some? <==> r.receipt.value.status in {ReceiptAvailable, ReceiptFailed}))
  {
    RunsKeepInv(retry, events);
    assert RequestInv(retry, Run(retry, [], events)[id]);
  }

  /**
   * On every run, whichever payment statuses are retried: attempts are numbered from one without
   * gaps and within the limit, all on the payment's rail; all but the newest had a retried status;
   * and the payment shows status and reference of the newest.
   */
  lemma {:induction false} AttemptsStayInOrder(retry: PaymentStatus -> bool, events: seq<Event>, id: nat)
    requires id < |Run(retry, [], events)| && Run(retry, [], events)[id].payment.Some?
    ensures PaymentInv(retry, Run(retry, [], events)[id].payment.value)
  {
    RunsKeepInv(retry, events);
    assert RequestInv(retry, Run(retry, [], events)[id]);
  }

  predicate Final(status: RequestStatus) {
    status == Rejected || status == Failed || status == Completed
  }

  /** What a step may do to one request: nothing final is left, no attempt is lost or added while paused. */
  ghost predicate RequestContinues(r: Request, q: Request) {
    && (Final(r.status) ==> q.status == r.status && q.payment == r.payment && q.receipt == r.receipt)
    && (r.payment.Some? ==> q.payment.Some? && r.payment.value.attempts <= q.payment.value.attempts)
  }

  lemma ChangedContinues(retry: PaymentStatus -> bool, r: Request, e: Event)
    requires !e.CreateRequest? && RequestInv(retry, r)
    ensures RequestContinues(r, Changed(retry, r, e))
    ensures r.paused ==> Changed(retry, r, e).payment == r.payment
  {
  }

  /** Rejected, failed and completed requests keep status, payment and receipt through every continuation. */
  lemma {:induction false} FinalRequestsStay(retry: PaymentStatus -> bool, events: seq<Event>, later: seq<Event>, id: nat)
    requires id < |Run(retry, [], events)| && Run(retry, [], events)[id].status in {Rejected, Failed, Completed}
    ensures id < |Run(retry, [], events + later)|
    ensures var r, q := Run(retry, [], events)[id], Run(retry, [], events + later)[id];
            q.status == r.status && q.payment == r.payment && q.receipt == r.receipt
    ensures RequestContinues(Run(retry, [], events)[id], Run(retry, [], events + later)[id])
    decreases |later|
  {
    hide Exec;
    if later == [] {
      assert events + later == events;
    } else {
      var front, e := later[..|later| - 1], later[|later| - 1];
      FinalRequestsStay(retry, events, front, id);
      assert (events + later)[..|events + later| - 1] == events + front;
      RunsKeepInv(retry, events + front);
      StepContinues(retry, Run(retry, [], events + front), e, id);
    }
  }

  lemma StepContinues(retry: PaymentStatus -> bool, requests: seq<Request>, e: Event, id: nat)
    requires id < |requests| && RequestInv(retry, requests[id])
    ensures id < |Exec(retry, requests, e)| && RequestContinues(requests[id], Exec(retry, requests, e)[id])
    ensures requests[id].paused ==> Exec(retry, requests, e)[id].payment == requests[id].payment
  {
    if !e.CreateRequest? && e.id == id {
      ChangedContinues(retry, requests[id], e);
    }
  }

  /** No attempt is ever added to a paused request. */
  lemma {:induction false} PausedRequestsAreNotPaid(retry: PaymentStatus -> bool, events: seq<Event>, e: Event, id: nat)
    requires id < |Run(retry, [], events)| && Run(retry, [], events)[id].paused
    ensures Exec(retry, Run(retry, [], events), e)[id].payment == Run(retry, [], events)[id].payment
  {
    RunsKeepInv(retry, events);
    StepContinues(retry, Run(retry, [], events), e, id);
  }

  // ---------------------------------------------------------------------------------------------
  // What one operation does to any request
  // ---------------------------------------------------------------------------------------------

  /**
   * An executed payment, whatever the request looked like: one more attempt with the rail's answer,
   * which the payment repeats; capture and fulfilment together settle request and receipt, and a
   * failed or voided attempt fails both.
   */
  lemma PaymentSettles(retry: PaymentStatus -> bool, r: Request, e: Event)
    requires e.ExecutePayment? && (e.scope.None? || e.scope == Some(r.organization))
    requires PaymentAllowed(retry, r, e.rail, e.railAccepts)
    ensures var q := Changed(retry, r, e);
            var lost := e.outcome in {PaymentFailed, Voided};
            && q.payment.Some? && q.receipt.Some?
            && q == r.(status := q.status, payment := q.payment, receipt := q.receipt)
            && (q.status == Failed <==> lost || (e.outcome == Captured && r.fulfilment == Some(NotDelivered)))
            && (q.status == Completed <==> e.outcome == Captured && r.fulfilment == Some(Delivered))
            && q.status in {Failed, Completed, Executing}
            && (q.receipt.value.status == ReceiptFailed <==> lost || r.fulfilment == Some(NotDelivered))
            && (q.receipt.value.status == ReceiptAvailable <==> e.outcome == Captured && r.fulfilment == Some(Delivered))
            && (q.receipt.value.storageKey.Some? <==> q.receipt.value.status in {ReceiptFailed, ReceiptAvailable})
            && var p, before := q.payment.value, if r.payment.Some? then r.payment.value.attempts else [];
               && p.rail == e.rail && p.status == e.outcome && p.reference == e.reference
               && p.attempts == before + [Attempt(if before == [] then 1 else before[|before| - 1].number + 1, e.rail, e.outcome, e.reference)]
  {
    if r.fulfilment.Some? {
      match r.fulfilment.value
      case Delivered =>
      case NotDelivered =>
    }
  }

  /** Decisions, fulfilments and pauses, whatever the request looked like: who may, and what becomes of it. */
  lemma OtherChangesAreExactly(retry: PaymentStatus -> bool, r: Request, e: Event)
    requires e.DecideApproval? || e.RecordFulfilment? || e.SetPaused?
    ensures var q := Changed(retry, r, e);
            match e
            case DecideApproval(organization, _, approve) =>
              if organization == r.organization && r.approval == Some(ApprovalPending) then
                && q.(status := r.status, approval := r.approval) == r
                && (approve ==> q.status == Approved && q.approval == Some(ApprovalGranted))
                && (!approve ==> q.status == Rejected && q.approval == Some(ApprovalDenied))
              else q == r
            case RecordFulfilment(seller, _, delivered) =>
              if seller == r.seller && r.status in {Approved, Executing} then
                && q.(status := r.status, fulfilment := r.fulfilment) == r
                && (delivered ==> q.status == Completed && q.fulfilment == Some(Delivered))
                && (!delivered ==> q.status == Failed && q.fulfilment == Some(NotDelivered))
              else q == r
            case SetPaused(_, paused) => q.paused == paused && q.(paused := r.paused) == r
            case _ => true
  {
  }

  // ---------------------------------------------------------------------------------------------
  // What gets paid was admitted
  // ---------------------------------------------------------------------------------------------

  /** The policy a creation is checked against: the one asked for, else the agent's own. */
  ghost predicate Governs(directory: Directory, organization: string, input: Input, policy: Policy) {
    && input.agent in directory.agents && directory.agents[input.agent].organization == organization
    && var asked := if input.policy.Some? then input.policy else directory.agents[input.agent].policy;
       && asked.Some? && asked.value in directory.policies && directory.policies[asked.value] == policy
       && policy.organization == organization && policy.active
  }

  ghost predicate AdmittedBy(directory: Directory, input: Input, policy: Policy) {
    && input.agent in directory.agents && input.seller.Some?
    && Admits(directory.agents[input.agent].active, input.amount, input.seller.value, input.category, input.service, policy.rules)
  }

  ghost predicate WithinThreshold(input: Input, policy: Policy) {
    policy.rules.autoApprovalThreshold.Some? && input.amount <= policy.rules.autoApprovalThreshold.value
  }

  /**
   * When a creation stores a request, and with which status, exactly: for an agent of the
   * organization, a known seller and a governing policy; rejected unless the policy admits it,
   * approved at once within the threshold, and submitted for approval otherwise.
   */
  lemma CreatedExactlyWhen(organization: string, input: Input, directory: Directory)
    ensures NewRequest(organization, input, directory).Ok? <==>
              input.seller.Some? && input.seller.value in directory.sellers
              && exists policy :: Governs(directory, organization, input, policy)
    ensures forall policy :: Governs(directory, organization, input, policy) && NewRequest(organization, input, directory).Ok? ==>
              var r := NewRequest(organization, input, directory).value;
              && (r.status == Rejected <==> !AdmittedBy(directory, input, policy))
              && (r.status == Approved <==> AdmittedBy(directory, input, policy) && WithinThreshold(input, policy))
              && (r.status == Submitted <==> AdmittedBy(directory, input, policy) && !WithinThreshold(input, policy))
              && r.approval == (match r.status
                                case Approved => Some(ApprovalGranted)
                                case Submitted => Some(ApprovalPending)
                                case _ => None)
              && r.organization == organization && r.key == input.key && SamePayload(r, input) && Some(r.seller) == input.seller
              && r.payment.None? && r.receipt.None? && r.fulfilment.None? && !r.paused
  {
    if input.agent in directory.agents && input.seller.Some? {
      var agent := directory.agents[input.agent];
      var asked := if input.policy.Some? then input.policy else agent.policy;
      if asked.Some? && asked.value in directory.policies {
        var policy := directory.policies[asked.value];
        VerdictIsExactly(agent.active, input.amount, input.seller.value, input.category, input.service, policy.rules);
        assert Governs(directory, organization, input, policy) <==>
               agent.organization == organization && policy.organization == organization && policy.active;
      }
    }
  }

  ghost predicate FiledUnder(r: Request, organization: string, input: Input) {
    input.key.Some? && r.organization == organization && r.key == input.key
  }

  /** A creation under a key in use answers the request filed there, unless the payload is another. */
  lemma KeyInUseAnswers(requests: seq<Request>, organization: string, input: Input, directory: Directory, i: nat)
    requires KeysUnique(requests) && i < |requests| && FiledUnder(requests[i], organization, input)
    ensures Create(requests, organization, input, directory) ==
            (if SamePayload(requests[i], input) then Ok(i) else Refused(KeyBoundToOtherPayload), requests)
  {
  }

  /** Why any other creation is refused, the first reason that applies. */
  lemma RefusedExactlyWhy(requests: seq<Request>, organization: string, input: Input, directory: Directory)
    requires forall i :: 0 <= i < |requests| ==> !FiledUnder(requests[i], organization, input)
    ensures var answer := Create(requests, organization, input, directory).0;
            var agentKnown := input.agent in directory.agents && directory.agents[input.agent].organization == organization;
            var sellerKnown := input.seller.Some? && input.seller.value in directory.sellers;
            var asked := if input.policy.Some? || !agentKnown then input.policy else directory.agents[input.agent].policy;
            var policyKnown := asked.Some? && asked.value in directory.policies && directory.policies[asked.value].organization == organization;
            && (answer == Refused(NoAgent) <==> !agentKnown)
            && (answer == Refused(NoSeller) <==> agentKnown && !sellerKnown)
            && (answer == Refused(NoPolicy) <==> agentKnown && sellerKnown && !policyKnown)
            && (answer == Refused(PolicyInactive) <==> agentKnown && sellerKnown && policyKnown && !directory.policies[asked.value].active)
            && (answer.Ok? ==> answer.value == |requests|)
  {
  }

  /** Event `at` created the request with this number, under this policy. */
  ghost predicate CreatedUnder(retry: PaymentStatus -> bool, events: seq<Event>, at: nat, policy: Policy, id: nat) {
    && at < |events| && events[at].CreateRequest? && id == |Run(retry, [], events[..at])|
    && Governs(events[at].directory, events[at].organization, events[at].input, policy)
  }

  /** The organization of creation `at` decided on the request afterwards. */
  ghost predicate DecidedLater(events: seq<Event>, at: nat, id: nat, approve: bool)
    requires at < |events| && events[at].CreateRequest?
  {
    exists k :: at < k < |events| && events[k] == DecideApproval(events[at].organization, id, approve)
  }

  /** How a request came by its approval: not at all, by the policy's threshold, or by a decision. */
  ghost predicate Traced(retry: PaymentStatus -> bool, events: seq<Event>, id: nat, at: nat, policy: Policy)
    requires id < |Run(retry, [], events)|
  {
    var r := Run(retry, [], events)[id];
    && CreatedUnder(retry, events, at, policy, id)
    && var e := events[at];
       && r.organization == e.organization && SamePayload(r, e.input) && Some(r.seller) == e.input.seller
       && (r.approval.Some? <==> AdmittedBy(e.directory, e.input, policy))
       && (r.approval == Some(ApprovalGranted) ==> WithinThreshold(e.input, policy) || DecidedLater(events, at, id, true))
       && (r.approval == Some(ApprovalDenied) ==> DecidedLater(events, at, id, false))
       && (r.approval == Some(ApprovalPending) ==> !WithinThreshold(e.input, policy))
  }

  lemma NewRequestsAreTraced(retry: PaymentStatus -> bool, front: seq<Event>, e: Event, id: nat) returns (policy: Policy)
    requires |Run(retry, [], front)| <= id < |Run(retry, [], front + [e])|
    ensures Traced(retry, front + [e], id, |front|, policy)
  {
    var events := front + [e];
    assert events[..|front|] == front;
    CreatedExactlyWhen(e.organization, e.input, e.directory);
    policy :| Governs(e.directory, e.organization, e.input, policy);
    assert Run(retry, [], events)[id] == NewRequest(e.organization, e.input, e.directory).value;
  }

  lemma OldRequestsStayTraced(retry: PaymentStatus -> bool, front: seq<Event>, e: Event, id: nat, at: nat, policy: Policy)
    requires id < |Run(retry, [], front)| && Traced(retry, front, id, at, policy)
    ensures id < |Run(retry, [], front + [e])| && Traced(retry, front + [e], id, at, policy)
  {
    var events := front + [e];
    assert events[..|front|] == front && events[..at] == front[..at] && events[at] == front[at];
    assert events[|front|] == e;
    var requests := Run(retry, [], front);
    assert Run(retry, [], events) == Exec(retry, requests, e);
    forall approve | DecidedLater(front, at, id, approve) ensures DecidedLater(events, at, id, approve) {
      var k :| at < k < |front| && front[k] == DecideApproval(front[at].organization, id, approve);
      assert events[k] == front[k];
    }
    if e.DecideApproval? && e.id == id {
      assert requests[id].organization == e.organization ==> DecidedLater(events, at, id, e.approve);
    }
  }

  /** On every run, whichever payments are retried, every request's approval can be traced. */
  lemma {:induction false} RequestsAreTraced(retry: PaymentStatus -> bool, events: seq<Event>, id: nat) returns (at: nat, policy: Policy)
    requires id < |Run(retry, [], events)|
    ensures Traced(retry, events, id, at, policy)
  {
    if events == [] {
      assert false;
    }
    hide Run, Traced;
    var front, e := events[..|events| - 1], events[|events| - 1];
    assert events == front + [e];
    if id < |Run(retry, [], front)| {
      at, policy := RequestsAreTraced(retry, front, id);
      OldRequestsStayTraced(retry, front, e, id, at, policy);
    } else {
      at := |front|;
      policy := NewRequestsAreTraced(retry, front, e, id);
    }
  }

  /**
   * On every run a request that carries a payment was created for an agent, amount, seller, service
   * and category its governing policy admitted then, and was approved by that policy's threshold or
   * by a later decision of its organization.
   */
  lemma {:induction false} PaidRequestsWereAdmitted(retry: PaymentStatus -> bool, events: seq<Event>, id: nat)
    requires id < |Run(retry, [], events)| && Run(retry, [], events)[id].payment.Some?
    ensures exists at: nat, policy ::
              && CreatedUnder(retry, events, at, policy, id)
              && AdmittedBy(events[at].directory, events[at].input, policy)
              && (WithinThreshold(events[at].input, policy) || DecidedLater(events, at, id, true))
  {
    RunsKeepInv(retry, events);
    assert RequestInv(retry, Run(retry, [], events)[id]);
    var at, policy := RequestsAreTraced(retry, events, id);
  }

  // ---------------------------------------------------------------------------------------------
  // Branches no run reaches
  // ---------------------------------------------------------------------------------------------

  /**
   * With the retried statuses of the source, no payment is ever retried: a failed or voided attempt
   * fails the request, and failed requests cannot be paid.  Every payment has exactly one attempt.
   */
  lemma {:induction false} PaymentsAreNeverRetried(events: seq<Event>, id: nat)
    requires id < |Run(RetryEligible, [], events)|
    ensures var r := Run(RetryEligible, [], events)[id];
            && (r.payment.Some? ==> |r.payment.value.attempts| == 1)
            && (r.payment.Some? ==> forall rail, railAccepts :: !PaymentAllowed(RetryEligible, r, rail, railAccepts))
  {
    RunsKeepInv(RetryEligible, events);
    OneAttemptEach(events);
    assert RequestInv(RetryEligible, Run(RetryEligible, [], events)[id]);
  }

  lemma {:induction false} OneAttemptEach(events: seq<Event>)
    ensures forall i :: 0 <= i < |Run(RetryEligible, [], events)| && Run(RetryEligible, [], events)[i].payment.Some? ==>
              |Run(RetryEligible, [], events)[i].payment.value.attempts| == 1
  {
    if events != [] {
      var requests, e := Run(RetryEligible, [], events[..|events| - 1]), events[|events| - 1];
      OneAttemptEach(events[..|events| - 1]);
      RunsKeepInv(RetryEligible, events[..|events| - 1]);
      if e.ExecutePayment? && e.id < |requests| {
        assert RequestInv(RetryEligible, requests[e.id]);
      }
    }
  }

  const SHOP := Directory(map["bot" := Agent("buyer", true, Some("policy"))], {"seller"},
                          map["policy" := Policy("buyer", true, Rules(None, Some(100), [], [], [], false))])

  /** An automatically approved request. */
  const ORDER := CreateRequest("buyer", Input("bot", None, Some("seller"), "title", 10, "tools", None, None), SHOP)

  function Pay(outcome: PaymentStatus): Event {
    ExecutePayment(None, 0, InternalSimulated, true, outcome, None)
  }

  lemma OrderIsApproved(retry: PaymentStatus -> bool)
    ensures var requests := Run(retry, [], [ORDER]);
            && |requests| == 1
            && requests[0] == Request("buyer", None, "bot", "title", 10, "tools", None, "seller", Approved,
                                      Some(ApprovalGranted), None, None, None, false)
  {
    assert [ORDER][..0] == [];
    assert Run(retry, [], [ORDER]) == Exec(retry, [], ORDER);
  }

  /**
   * A concrete run of the shortfall: an approved request is paid, the attempt fails, and although
   * the source's rule calls the payment retry-eligible, payment control refuses every further one.
   */
  lemma FailedPaymentsAreStranded()
    ensures var requests := Run(RetryEligible, [], [ORDER, Pay(PaymentFailed)]);
            && |requests| == 1
            && requests[0].payment.Some? && RetryEligible(requests[0].payment.value.status)
            && |requests[0].payment.value.attempts| == 1 < MAXIMUM_ATTEMPTS
            && requests[0].status == Failed
            && forall rail, railAccepts :: !PaymentAllowed(RetryEligible, requests[0], rail, railAccepts)
  {
    OrderIsApproved(RetryEligible);
    assert [ORDER, Pay(PaymentFailed)][..1] == [ORDER];
  }

  /** What a retry takes, of one consistent request. */
  lemma RetryTakes(retry: PaymentStatus -> bool, r: Request, rail: Rail, railAccepts: bool)
    requires RequestInv(retry, r) && r.payment.Some?
    ensures PaymentAllowed(retry, r, rail, railAccepts) <==>
            && railAccepts && !r.paused && r.fulfilment.None? && r.payment.value.rail == rail
            && retry(r.payment.value.status) && r.payment.value.status !in {PaymentFailed, Voided}
            && |r.payment.value.attempts| < MAXIMUM_ATTEMPTS
  {
    assert r.status in {Executing, Completed, Failed};
    if r.fulfilment.Some? {
      match r.fulfilment.value
      case Delivered => assert r.fulfilment == Some(Delivered);
      case NotDelivered => assert r.fulfilment == Some(NotDelivered);
    }
  }

  /** A retry happens exactly under a retry rule for some status that leaves the request executing. */
  lemma {:induction false} RetriesNeedALiveStatus(retry: PaymentStatus -> bool, events: seq<Event>, id: nat, rail: Rail, railAccepts: bool)
    requires id < |Run(retry, [], events)| && Run(retry, [], events)[id].payment.Some?
    ensures var r := Run(retry, [], events)[id];
            PaymentAllowed(retry, r, rail, railAccepts) <==>
            && railAccepts && !r.paused && r.fulfilment.None? && r.payment.value.rail == rail
            && retry(r.payment.value.status) && r.payment.value.status !in {PaymentFailed, Voided}
            && |r.payment.value.attempts| < MAXIMUM_ATTEMPTS
  {
    RunsKeepInv(retry, events);
    RetryTakes(retry, Run(retry, [], events)[id], rail, railAccepts);
  }

  /**
   * No receipt is ever available: fulfilment ends a request, so no payment is executed once a
   * delivery is recorded, and nothing revisits the receipt afterwards.
   */
  lemma {:induction false} ReceiptsAreNeverAvailable(retry: PaymentStatus -> bool, events: seq<Event>, id: nat)
    requires id < |Run(retry, [], events)| && Run(retry, [], events)[id].receipt.Some?
    ensures Run(retry, [], events)[id].receipt.value.status != ReceiptAvailable
  {
    RunsKeepInv(retry, events);
    assert RequestInv(retry, Run(retry, [], events)[id]);
  }

  /** A concrete run of the shortfall: captured and delivered, and the receipt stays pending for good. */
  lemma {:induction false} DeliveredReceiptsStayPending(retry: PaymentStatus -> bool, later: seq<Event>)
    ensures var delivered := [ORDER, Pay(Captured), RecordFulfilment("seller", 0, true)];
            var requests := Run(retry, [], delivered + later);
            && 0 < |requests|
            && requests[0].status == Completed && requests[0].fulfilment == Some(Delivered)
            && requests[0].payment.Some? && requests[0].payment.value.status == Captured
            && requests[0].receipt == Some(Receipt(ReceiptPending, None))
  {
    var delivered := [ORDER, Pay(Captured), RecordFulfilment("seller", 0, true)];
    OrderIsApproved(retry);
    assert delivered[..2][..1] == [ORDER];
    assert delivered[..2] == [ORDER, Pay(Captured)];
    FinalRequestsStay(retry, delivered, later, 0);
    RunsKeepInv(retry, delivered + later);
    assert RequestInv(retry, Run(retry, [], delivered + later)[0]);
  }

  // ---------------------------------------------------------------------------------------------
  // The table, updated in place
  // ---------------------------------------------------------------------------------------------

  class SpendDesk {
    var requests: seq<Request>

    constructor ()
      ensures requests == []
    {
      requests := [];
    }

    method CreateBuyerRequest(organization: string, input: Input, directory: Directory) returns (r: Result<nat, Refusal>)
      modifies this
      ensures (r, requests) == Create(old(requests), organization, input, directory)
    {
      if input.key.Some? {
        var existing := FindByKey(requests, organization, input.key.value);
        if existing.Some? {
          if SamePayload(requests[existing.value], input) {
            return Ok(existing.value);
          }
          return Refused(KeyBoundToOtherPayload);
        }
      }
      var request := NewRequest(organization, input, directory);
      if request.Refused? {
        return Refused(request.error);
      }
      requests := requests + [request.value];
      return Ok(|requests| - 1);
    }

    method DecideBuyerApproval(organization: string, id: nat, approve: bool) returns (done: bool)
      modifies this
      ensures forall retry :: requests == Exec(retry, old(requests), DecideApproval(organization, id, approve))
    {
      if id >= |requests| || requests[id].organization != organization || requests[id].approval != Some(ApprovalPending) {
        return false;
      }
      var r := requests[id];
      r := r.(approval := Some(if approve then ApprovalGranted else ApprovalDenied));
      r := r.(status := if approve then Approved else Rejected);
      requests := requests[id := r];
      return true;
    }

    method ExecuteRequestPayment(retry: PaymentStatus -> bool, scope: Option<string>, id: nat, rail: Rail, railAccepts: bool,
                                 outcome: PaymentStatus, reference: Option<string>) returns (done: bool)
      modifies this
      ensures requests == Exec(retry, old(requests), ExecutePayment(scope, id, rail, railAccepts, outcome, reference))
    {
      if id >= |requests| || (scope.Some? && scope.value != requests[id].organization)
         || !PaymentAllowed(retry, requests[id], rail, railAccepts)
      {
        return false;
      }
      var r := requests[id];
      var attemptNumber := NextAttemptNumber(r.payment);
      var payment := if r.payment.Some? then r.payment.value else Payment(rail, PaymentPending, None, []);
      payment := payment.(attempts := payment.attempts + [Attempt(attemptNumber, rail, outcome, reference)]);
      payment := payment.(rail := rail, reference := reference, status := outcome);
      var next := Executing;
      if outcome == PaymentFailed || outcome == Voided || (outcome == Captured && r.fulfilment == Some(NotDelivered)) {
        next := Failed;
      } else if outcome == Captured && r.fulfilment == Some(Delivered) {
        next := Completed;
      }
      var receipt := ResolveReceipt(outcome, r.fulfilment);
      r := r.(payment := Some(payment), status := next,
              receipt := Some(Receipt(receipt, if receipt == ReceiptPending then None else Some(StorageKey(id)))));
      requests := requests[id := r];
      return true;
    }

    method SetRequestPaused(id: nat, paused: bool)
      requires id < |requests|
      modifies this
      ensures forall retry :: requests == Exec(retry, old(requests), SetPaused(id, paused))
    {
      requests := requests[id := requests[id].(paused := paused)];
    }

    method RecordSellerFulfilment(seller: string, id: nat, delivered: bool) returns (done: bool)
      modifies this
      ensures forall retry :: requests == Exec(retry, old(requests), RecordFulfilment(seller, id, delivered))
    {
      if id >= |requests| || requests[id].seller != seller || !Executable(requests[id].status) {
        return false;
      }
      requests := requests[id := requests[id].(status := if delivered then Completed else Failed,
                                              fulfilment := Some(if delivered then Delivered else NotDelivered))];
      return true;
    }
  }
}
