/**
 * Operator exception cases: reconciling the case table against the requests that currently need
 * an operator, and the actions operators take on cases.
 */
module OperatorCases {
  import opened Basics
  import opened Labels

  // ---------------------------------------------------------------------------------------------
  // Signals, classification and fingerprint
  // ---------------------------------------------------------------------------------------------

  /** Status texts contain no colon and are not one of the placeholders for a missing row. */
  type StatusText = s: string | ColonFree(s) && s !in {"no-payment", "no-receipt", "no-fulfillment"} witness ""

  /** What a sync reads of one request. */
  datatype Signal = Signal(
    request: StatusText, payment: Option<StatusText>, receipt: Option<StatusText>,
    fulfilment: Option<StatusText>, paused: bool, attempts: nat)

  datatype CaseStatus = Open | Investigating | ActionRequired | Resolved | Closed

  predicate IsOpen(status: CaseStatus) {
    status != Resolved && status != Closed
  }

  datatype Category =
    | RequestPaused | ReceiptFailure | PaymentRetryExhausted | PaymentFailure
    | SettlementDelay | SellerConfirmationDelay | ReceiptPending

  function CategoryText(c: Category): (text: string)
    ensures ColonFree(text)
  {
    match c
    case RequestPaused => "REQUEST_PAUSED"
    case ReceiptFailure => "RECEIPT_FAILURE"
    case PaymentRetryExhausted => "PAYMENT_RETRY_EXHAUSTED"
    case PaymentFailure => "PAYMENT_FAILURE"
    case SettlementDelay => "SETTLEMENT_DELAY"
    case SellerConfirmationDelay => "SELLER_CONFIRMATION_DELAY"
    case ReceiptPending => "RECEIPT_PENDING"
  }

  datatype Classification = Classification(category: Category, status: CaseStatus)

  /** The part of the reconciliation state that classification looks at. */
  predicate AwaitsSettlement(s: Signal) {
    && !Settled(s) && s.payment == Some("AUTHORIZED")
  }

  predicate AwaitsSellerConfirmation(s: Signal) {
    && !Settled(s) && s.payment == Some("CAPTURED") && s.fulfilment != Some("DELIVERED")
  }

  /** Cancelled, failed or finished: reconciliation has reached a final state. */
  predicate Settled(s: Signal) {
    || s.request == "CANCELED" || s.payment == Some("VOIDED")
    || s.request == "FAILED" || s.payment == Some("FAILED") || s.receipt == Some("FAILED")
    || s.receipt == Some("AVAILABLE")
  }

  function Classify(s: Signal): (c: Option<Classification>)
    ensures c.Some? ==> IsOpen(c.value.status)
  {
    if s.paused then Some(Classification(RequestPaused, ActionRequired))
    else if s.receipt == Some("FAILED") then Some(Classification(ReceiptFailure, Open))
    else if s.payment == Some("FAILED") || s.payment == Some("VOIDED") then
      if s.attempts >= MAXIMUM_ATTEMPTS then Some(Classification(PaymentRetryExhausted, ActionRequired))
      else Some(Classification(PaymentFailure, Open))
    else if AwaitsSettlement(s) then Some(Classification(SettlementDelay, Open))
    else if AwaitsSellerConfirmation(s) then Some(Classification(SellerConfirmationDelay, Open))
    else if s.receipt == Some("PENDING") && s.payment == Some("CAPTURED") then Some(Classification(ReceiptPending, Open))
    else None
  }

  /**
   * Which case a request needs, category by category, each condition in full: a pause goes before
   * everything, a failed receipt before a failed payment, and a final state waits for nothing.
   */
  lemma ClassifiedExactly(s: Signal)
    ensures var category := if Classify(s).Some? then Some(Classify(s).value.category) else None;
            var failed := s.payment in {Some("FAILED"), Some("VOIDED")};
            var waiting := !s.paused && s.request !in {"CANCELED", "FAILED"} && s.receipt !in {Some("FAILED"), Some("AVAILABLE")};
            && (category == Some(RequestPaused) <==> s.paused)
            && (category == Some(ReceiptFailure) <==> !s.paused && s.receipt == Some("FAILED"))
            && (category == Some(PaymentRetryExhausted) <==> !s.paused && s.receipt != Some("FAILED") && failed && 3 <= s.attempts)
            && (category == Some(PaymentFailure) <==> !s.paused && s.receipt != Some("FAILED") && failed && s.attempts < 3)
            && (category == Some(SettlementDelay) <==> waiting && s.payment == Some("AUTHORIZED"))
            && (category == Some(SellerConfirmationDelay) <==> waiting && s.payment == Some("CAPTURED") && s.fulfilment != Some("DELIVERED"))
            && (category == Some(ReceiptPending) <==>
                  && !s.paused && s.payment == Some("CAPTURED") && s.receipt == Some("PENDING")
                  && (s.fulfilment == Some("DELIVERED") || s.request in {"CANCELED", "FAILED"}))
  {
  }

  /** What a new or reopened case starts as. */
  ghost predicate NeedsIntervention(s: Signal) {
    s.paused || (s.payment in {Some("FAILED"), Some("VOIDED")} && s.receipt != Some("FAILED") && 3 <= s.attempts)
  }

  function CaseKey(category: Category, requestId: string): string {
    CategoryText(category) + ":" + requestId
  }

  lemma CategoryTextIsInjective(c: Category, d: Category)
    requires CategoryText(c) == CategoryText(d)
    ensures c == d
  {
    var s := CategoryText(c);
    assert s == CategoryText(d);
    assert |s| == 16 ==> s[0] == 'S';
    assert |s| == 15 ==> s[0] == 'P' || s[8] == 'F' || s[8] == 'P';
  }

  /** A case key names one category of one request, whatever characters request ids contain. */
  lemma CaseKeyIsInjective(c: Category, r: string, d: Category, q: string)
    requires CaseKey(c, r) == CaseKey(d, q)
    ensures c == d && r == q
  {
    FirstColonSplits(CategoryText(c), r, CategoryText(d), q);
    CategoryTextIsInjective(c, d);
  }

  function TextOr(status: Option<StatusText>, placeholder: string): (text: string)
    requires ColonFree(placeholder)
    ensures ColonFree(text)
  {
    match status
    case Some(value) => value
    case None => placeholder
  }

  function Fingerprint(s: Signal): string {
    s.request + ":" + (TextOr(s.payment, "no-payment") + ":" + (TextOr(s.receipt, "no-receipt") + ":" +
    (TextOr(s.fulfilment, "no-fulfillment") + ":" + ((if s.paused then "paused" else "active") + ":" + Decimal(s.attempts)))))
  }

  /** The fingerprint identifies the observed state: equal fingerprints come from equal signals. */
  lemma FingerprintIsInjective(s: Signal, t: Signal)
    requires Fingerprint(s) == Fingerprint(t)
    ensures s == t
  {
    var s4, t4 := (if s.paused then "paused" else "active"), (if t.paused then "paused" else "active");
    assert s4 == t4 ==> s.paused == t.paused by {
      assert "paused"[0] != "active"[0];
    }
    var s5, t5 := s4 + ":" + Decimal(s.attempts), t4 + ":" + Decimal(t.attempts);
    var s3, t3 := TextOr(s.fulfilment, "no-fulfillment"), TextOr(t.fulfilment, "no-fulfillment");
    var s2, t2 := TextOr(s.receipt, "no-receipt"), TextOr(t.receipt, "no-receipt");
    var s1, t1 := TextOr(s.payment, "no-payment"), TextOr(t.payment, "no-payment");
    FirstColonSplits(s.request, s1 + ":" + (s2 + ":" + (s3 + ":" + s5)), t.request, t1 + ":" + (t2 + ":" + (t3 + ":" + t5)));
    FirstColonSplits(s1, s2 + ":" + (s3 + ":" + s5), t1, t2 + ":" + (t3 + ":" + t5));
    FirstColonSplits(s2, s3 + ":" + s5, t2, t3 + ":" + t5);
    FirstColonSplits(s3, s5, t3, t5);
    FirstColonSplits(s4, Decimal(s.attempts), t4, Decimal(t.attempts));
    DecimalIsInjective(s.attempts, t.attempts);
  }

  // ---------------------------------------------------------------------------------------------
  // Tables and the declarative meaning of a sync
  // ---------------------------------------------------------------------------------------------

  datatype Case = Case(
    requestId: string, category: Category, status: CaseStatus, reason: Option<string>,
    fingerprint: Option<string>, resolvedFingerprint: Option<string>)

  datatype Audit = CaseOpened(key: string) | CaseResolved(key: string) | CaseActed(key: string)

  /** Requests by id, cases by case key, and per case key whether its notification is unread. */
  datatype Tables = Tables(requests: map<string, Signal>, cases: map<string, Case>, unread: map<string, bool>)

  const LAPSED := "Lifecycle state no longer matches the original exception trigger."

  /** The key under which a request currently needs a case, if it needs one. */
  function DesiredKey(requests: map<string, Signal>, id: string): Option<string>
    requires id in requests
  {
    var c := Classify(requests[id]);
    if c.None? then None else Some(CaseKey(c.value.category, id))
  }

  ghost predicate Wanted(requests: map<string, Signal>, key: string, id: string) {
    id in requests && DesiredKey(requests, id) == Some(key)
  }

  /** A case that is currently wanted, brought up to date. */
  function Refreshed(existing: Option<Case>, id: string, s: Signal, c: Classification): Case {
    var fingerprint := Fingerprint(s);
    if existing.None? then Case(id, c.category, c.status, None, Some(fingerprint), None)
    else
      var prior := existing.value;
      var reopen := !IsOpen(prior.status) && prior.resolvedFingerprint != Some(fingerprint);
      Case(id, c.category, if reopen then c.status else prior.status, if reopen then None else prior.reason,
           Some(fingerprint), prior.resolvedFingerprint)
  }

  /** A case that is no longer wanted is resolved if it was open, and otherwise left alone. */
  function Lapsed(prior: Case): Case {
    if IsOpen(prior.status) then prior.(status := Resolved, reason := Some(prior.reason.GetOr(LAPSED))) else prior
  }

  function Lookup<V>(m: map<string, V>, key: string): Option<V> {
    if key in m then Some(m[key]) else None
  }

  /** At most one request wants any given key. */
  lemma WantedIsUnique(requests: map<string, Signal>, key: string, id: string, other: string)
    requires Wanted(requests, key, id) && Wanted(requests, key, other)
    ensures id == other
  {
    CaseKeyIsInjective(Classify(requests[id]).value.category, id, Classify(requests[other]).value.category, other);
  }

  /** The case a sync leaves under a key. */
  ghost function SyncedCase(before: Tables, key: string): Option<Case> {
    if exists id :: Wanted(before.requests, key, id) then
      var id :| Wanted(before.requests, key, id);
      Some(Refreshed(Lookup(before.cases, key), id, before.requests[id], Classify(before.requests[id]).value))
    else if key in before.cases then Some(Lapsed(before.cases[key]))
    else None
  }

  /** The notification a sync leaves under a key. */
  ghost function SyncedUnread(before: Tables, key: string): Option<bool> {
    if exists id :: Wanted(before.requests, key, id) then Some(IsOpen(SyncedCase(before, key).value.status))
    else if key in before.cases && IsOpen(before.cases[key].status) then Some(false)
    else Lookup(before.unread, key)
  }

  /** `after` is what one sync makes of `before`, said key by key. */
  ghost predicate Synced(before: Tables, after: Tables) {
    && after.requests == before.requests
    && forall key: string ::
         && Lookup(after.cases, key) == SyncedCase(before, key)
         && Lookup(after.unread, key) == SyncedUnread(before, key)
  }

  // ---------------------------------------------------------------------------------------------
  // Theorems about one sync
  // ---------------------------------------------------------------------------------------------

  lemma SyncedCaseOf(before: Tables, key: string, id: string)
    requires Wanted(before.requests, key, id)
    ensures SyncedCase(before, key) ==
            Some(Refreshed(Lookup(before.cases, key), id, before.requests[id], Classify(before.requests[id]).value))
  {
    var chosen :| Wanted(before.requests, key, chosen)
               && SyncedCase(before, key) == Some(Refreshed(Lookup(before.cases, key), chosen, before.requests[chosen], Classify(before.requests[chosen]).value));
    WantedIsUnique(before.requests, key, id, chosen);
  }

  /** After a sync every open case is the currently wanted case of its own request. */
  lemma OpenCasesAreWanted(before: Tables, after: Tables, key: string)
    requires Synced(before, after) && key in after.cases && IsOpen(after.cases[key].status)
    ensures Wanted(after.requests, key, after.cases[key].requestId)
  {
    assert Lookup(after.cases, key) == SyncedCase(before, key);
    if id :| Wanted(before.requests, key, id) {
      SyncedCaseOf(before, key, id);
    }
  }

  /** After a sync no request has two open cases. */
  lemma AtMostOneOpenCase(before: Tables, after: Tables, key: string, other: string)
    requires Synced(before, after)
    requires key in after.cases && IsOpen(after.cases[key].status)
    requires other in after.cases && IsOpen(after.cases[other].status)
    requires after.cases[key].requestId == after.cases[other].requestId
    ensures key == other
  {
    OpenCasesAreWanted(before, after, key);
    OpenCasesAreWanted(before, after, other);
  }

  /** A second sync on unchanged requests changes no case and no notification. */
  lemma SyncIsIdempotent(before: Tables, after: Tables, again: Tables)
    requires Synced(before, after) && Synced(after, again)
    ensures again == after
  {
    forall key: string
      ensures Lookup(again.cases, key) == Lookup(after.cases, key)
      ensures Lookup(again.unread, key) == Lookup(after.unread, key)
    {
      assert Lookup(after.cases, key) == SyncedCase(before, key);
      assert Lookup(again.cases, key) == SyncedCase(after, key);
      assert Lookup(after.unread, key) == SyncedUnread(before, key);
      assert Lookup(again.unread, key) == SyncedUnread(after, key);
      if id :| Wanted(before.requests, key, id) {
        SyncedCaseOf(before, key, id);
        SyncedCaseOf(after, key, id);
      }
    }
    SameLookups(again.cases, after.cases);
    SameLookups(again.unread, after.unread);
  }

  lemma SameLookups<V>(m: map<string, V>, n: map<string, V>)
    requires forall key: string :: Lookup(m, key) == Lookup(n, key)
    ensures m == n
  {
    forall key: string
      ensures key in m <==> key in n
      ensures key in m ==> m[key] == n[key]
    {
      assert Lookup(m, key) == Lookup(n, key);
    }
  }

  /** A case that was open and is still wanted keeps its exact status and reason. */
  lemma SyncKeepsOpenCases(before: Tables, after: Tables, key: string, id: string)
    requires Synced(before, after) && Wanted(before.requests, key, id)
    requires key in before.cases && IsOpen(before.cases[key].status)
    ensures key in after.cases && after.cases[key].requestId == id
    ensures after.cases[key].status == before.cases[key].status && after.cases[key].reason == before.cases[key].reason
  {
    SyncedCaseOf(before, key, id);
    assert Lookup(after.cases, key) == SyncedCase(before, key);
  }

  /** A new case, or one closed in another state of its request, starts over. */
  lemma SyncStartsCases(before: Tables, after: Tables, key: string, id: string)
    requires Synced(before, after) && Wanted(before.requests, key, id)
    requires key in before.cases ==>
               && !IsOpen(before.cases[key].status)
               && before.cases[key].resolvedFingerprint != Some(Fingerprint(before.requests[id]))
    ensures key in after.cases && after.cases[key].requestId == id
    ensures after.cases[key].status == if NeedsIntervention(before.requests[id]) then ActionRequired else Open
    ensures after.cases[key].reason == None && Lookup(after.unread, key) == Some(true)
  {
    SyncedCaseOf(before, key, id);
    assert Lookup(after.cases, key) == SyncedCase(before, key);
    assert Lookup(after.unread, key) == SyncedUnread(before, key);
  }

  /** A case nobody wants any more is resolved if it was open, and keeps a reason it had. */
  lemma SyncEndsCases(before: Tables, after: Tables, key: string)
    requires Synced(before, after) && (forall id :: !Wanted(before.requests, key, id))
    ensures key in after.cases <==> key in before.cases
    ensures key in before.cases && !IsOpen(before.cases[key].status) ==> after.cases[key] == before.cases[key]
    ensures key in before.cases && IsOpen(before.cases[key].status) ==>
              && after.cases[key].status == Resolved && after.cases[key].requestId == before.cases[key].requestId
              && after.cases[key].reason == (if before.cases[key].reason.Some? then before.cases[key].reason else Some(LAPSED))
              && Lookup(after.unread, key) == Some(false)
  {
    assert Lookup(after.cases, key) == SyncedCase(before, key);
    assert Lookup(after.unread, key) == SyncedUnread(before, key);
  }

  /** A sync leaves no choice. */
  lemma SyncIsDeterministic(before: Tables, after: Tables, other: Tables)
    requires Synced(before, after) && Synced(before, other)
    ensures after == other
  {
    forall key: string
      ensures Lookup(after.cases, key) == Lookup(other.cases, key)
      ensures Lookup(after.unread, key) == Lookup(other.unread, key)
    {
      assert Lookup(after.cases, key) == SyncedCase(before, key) && Lookup(other.cases, key) == SyncedCase(before, key);
      assert Lookup(after.unread, key) == SyncedUnread(before, key) && Lookup(other.unread, key) == SyncedUnread(before, key);
    }
    SameLookups(after.cases, other.cases);
    SameLookups(after.unread, other.unread);
  }

  /** Every case has a notification, unread exactly while the case is open. */
  ghost predicate NotificationsAgree(t: Tables) {
    t.unread.Keys == t.cases.Keys && forall key :: key in t.cases ==> t.unread[key] == IsOpen(t.cases[key].status)
  }

  lemma SyncKeepsNotifications(before: Tables, after: Tables)
    requires Synced(before, after) && NotificationsAgree(before)
    ensures NotificationsAgree(after)
  {
    forall key: string
      ensures key in after.unread <==> key in after.cases
      ensures key in after.cases ==> after.unread[key] == IsOpen(after.cases[key].status)
    {
      assert Lookup(after.cases, key) == SyncedCase(before, key);
      assert Lookup(after.unread, key) == SyncedUnread(before, key);
    }
  }

  // ---------------------------------------------------------------------------------------------
  // Operator actions
  // ---------------------------------------------------------------------------------------------

  datatype Action = Annotate | Resolve | Pause | Release | Requeue

  function AvailableActions(status: CaseStatus, s: Signal): set<Action> {
    {Annotate}
    + (if IsOpen(status) then {Resolve} else {})
    + (if s.paused then {Release} else if s.request != "COMPLETED" && s.request != "CANCELED" then {Pause} else {})
    + (if s.payment in {Some("FAILED"), Some("VOIDED")} && !s.paused then {Requeue} else {})
  }

  /**
   * Cases and actions fit together: a paused request, and only it, is offered for release; a
   * failed payment in the queue is offered for requeueing; and no case offers pause and release.
   */
  lemma CategoriesFitActions(s: Signal, status: CaseStatus)
    ensures var c, actions := Classify(s), AvailableActions(status, s);
            && (c.Some? && c.value.category == RequestPaused <==> Release in actions)
            && (c.Some? && c.value.category in {PaymentFailure, PaymentRetryExhausted} ==> Requeue in actions)
            && (Requeue in actions ==> c.Some? && c.value.category in {PaymentFailure, PaymentRetryExhausted, ReceiptFailure})
            && (Pause in actions <==> !s.paused && s.request !in {"COMPLETED", "CANCELED"})
            && (Release in actions <==> s.paused)
            && (Requeue in actions <==> !s.paused && s.payment in {Some("FAILED"), Some("VOIDED")})
            && (Resolve in actions <==> status !in {Resolved, Closed})
            && Annotate in actions
  {
  }

  /**
   * Why an action is refused after the opening sync: unknown case, not available, or, when
   * requeueing, a payment that payment control turned down (`paid` is None).
   */
  predicate Allowed(t: Tables, key: string, action: Action, paid: Option<Signal>) {
    && key in t.cases && t.cases[key].requestId in t.requests
    && action in AvailableActions(t.cases[key].status, t.requests[t.cases[key].requestId])
    && (action == Requeue ==> paid.Some?)
  }

  function Applied(t: Tables, key: string, action: Action, reason: string, paid: Option<Signal>): Tables
    requires Allowed(t, key, action, paid)
  {
    var c := t.cases[key];
    var s := t.requests[c.requestId];
    var signal :=
      match action
      case Pause => s.(paused := true)
      case Release => s.(paused := false)
      case Requeue => paid.value
      case Annotate | Resolve => s;
    var acted :=
      if action == Resolve then c.(status := Resolved, reason := Some(reason), resolvedFingerprint := c.fingerprint)
      else c.(status := if action == Pause then ActionRequired else Investigating, reason := None);
    Tables(t.requests[c.requestId := signal], t.cases[key := acted],
           if key in t.unread then t.unread[key := action != Resolve] else t.unread)
  }

  datatype Event =
    | Sync
    | Act(key: string, action: Action, reason: string, paid: Option<Signal>)
    | Change(requests: map<string, Signal>)

  /** An operation syncs, acts when allowed, and syncs again; other workflows rewrite the requests. */
  ghost predicate Step(before: Tables, e: Event, after: Tables) {
    match e
    case Sync => Synced(before, after)
    case Change(requests) => after == before.(requests := requests)
    case Act(key, action, reason, paid) =>
      exists opening: Tables ::
        && Synced(before, opening)
        && if Allowed(opening, key, action, paid)
           then Synced(Applied(opening, key, action, reason, paid), after)
           else after == opening
  }

  ghost predicate IsRun(states: seq<Tables>, events: seq<Event>) {
    && |states| == |events| + 1
    && forall i :: 0 <= i < |events| ==> Step(states[i], events[i], states[i + 1])
  }

  lemma StepKeepsNotifications(before: Tables, e: Event, after: Tables)
    requires Step(before, e, after) && NotificationsAgree(before)
    ensures NotificationsAgree(after)
  {
    match e
    case Sync => SyncKeepsNotifications(before, after);
    case Change(_) =>
    case Act(key, action, reason, paid) =>
      var opening: Tables :| Synced(before, opening)
        && if Allowed(opening, key, action, paid)
           then Synced(Applied(opening, key, action, reason, paid), after) else after == opening;
      SyncKeepsNotifications(before, opening);
      if Allowed(opening, key, action, paid) {
        SyncKeepsNotifications(Applied(opening, key, action, reason, paid), after);
      }
  }

  /** Over all runs from empty tables, a case is open exactly when its notification is unread. */
  lemma {:induction false} OpenExactlyWhenUnread(states: seq<Tables>, events: seq<Event>)
    requires IsRun(states, events) && states[0].cases == map[] && states[0].unread == map[]
    ensures NotificationsAgree(states[|events|])
    decreases |events|
  {
    if events != [] {
      OpenExactlyWhenUnread(states[..|events|], events[..|events| - 1]);
      StepKeepsNotifications(states[|events| - 1], events[|events| - 1], states[|events|]);
    }
  }

  // ---------------------------------------------------------------------------------------------
  // What actions do
  // ---------------------------------------------------------------------------------------------

  /** The request after an allowed action. */
  ghost predicate ActedOn(s: Signal, action: Action, paid: Option<Signal>, q: Signal) {
    match action
    case Annotate => q == s
    case Resolve => q == s
    case Pause => q.paused && q.(paused := s.paused) == s
    case Release => !q.paused && q.(paused := s.paused) == s
    case Requeue => paid == Some(q)
  }

  /**
   * What an allowed action leaves behind, closing sync included: its own request is as the action
   * says and no other changes; a resolved case is resolved for the given reason; any other action
   * puts the case in hand if its request still wants it, and otherwise it lapses.
   */
  lemma ActionOutcome(before: Tables, opening: Tables, key: string, action: Action, reason: string, paid: Option<Signal>, after: Tables)
    requires Synced(before, opening) && Allowed(opening, key, action, paid)
    requires Step(before, Act(key, action, reason, paid), after)
    ensures var id := opening.cases[key].requestId;
            && after.requests.Keys == before.requests.Keys && id in after.requests && key in after.cases
            && (forall other :: other in before.requests && other != id ==> after.requests[other] == before.requests[other])
            && ActedOn(before.requests[id], action, paid, after.requests[id])
            && var c := after.cases[key];
               if action == Resolve then c.status == Resolved && c.reason == Some(reason)
               else if Wanted(after.requests, key, id) then
                 c.status == (if action == Pause then ActionRequired else Investigating) && c.reason == None
               else c.status == Resolved && c.reason == Some(LAPSED)
  {
    AllowedActionIsApplied(before, opening, key, action, reason, paid, after);
    var applied := Applied(opening, key, action, reason, paid);
    assert applied.requests == after.requests && opening.requests == before.requests;
    if action == Resolve {
      ResolvingIsSticky(before, opening, after, key, reason);
    } else {
      HandledCase(before, opening, key, action, reason, paid, after);
    }
    hide Synced, Step, Wanted;
  }

  lemma AllowedActionIsApplied(before: Tables, opening: Tables, key: string, action: Action, reason: string, paid: Option<Signal>, after: Tables)
    requires Synced(before, opening) && Allowed(opening, key, action, paid)
    requires Step(before, Act(key, action, reason, paid), after)
    ensures Synced(Applied(opening, key, action, reason, paid), after)
  {
    var other: Tables :| Synced(before, other)
      && if Allowed(other, key, action, paid) then Synced(Applied(other, key, action, reason, paid), after) else after == other;
    SyncIsDeterministic(before, opening, other);
  }

  lemma HandledCase(before: Tables, opening: Tables, key: string, action: Action, reason: string, paid: Option<Signal>, after: Tables)
    requires Synced(before, opening) && Allowed(opening, key, action, paid) && action != Resolve
    requires Synced(Applied(opening, key, action, reason, paid), after)
    ensures var c, id := Lookup(after.cases, key), opening.cases[key].requestId;
            && c.Some?
            && if Wanted(after.requests, key, id) then
                 c.value.status == (if action == Pause then ActionRequired else Investigating) && c.value.reason == None
               else c.value.status == Resolved && c.value.reason == Some(LAPSED)
  {
    var applied, id := Applied(opening, key, action, reason, paid), opening.cases[key].requestId;
    if Wanted(after.requests, key, id) {
      SyncKeepsOpenCases(applied, after, key, id);
    } else {
      OnlyOwnRequestWants(before, opening, applied, key);
      SyncEndsCases(applied, after, key);
    }
  }

  /** A case can only become wanted by its own request when only that one changes. */
  lemma OnlyOwnRequestWants(before: Tables, opening: Tables, applied: Tables, key: string)
    requires Synced(before, opening) && key in opening.cases
    requires forall other :: other != opening.cases[key].requestId && other in applied.requests ==>
               other in opening.requests && applied.requests[other] == opening.requests[other]
    requires !Wanted(applied.requests, key, opening.cases[key].requestId)
    ensures forall id :: !Wanted(applied.requests, key, id)
  {
    forall id ensures !Wanted(applied.requests, key, id) {
      if Wanted(applied.requests, key, id) {
        WantedCasesAreOwn(before, opening, key, id);
      }
    }
  }

  /** A sync files a wanted case with the request that wants it. */
  lemma WantedCasesAreOwn(before: Tables, after: Tables, key: string, id: string)
    requires Synced(before, after) && Wanted(before.requests, key, id)
    ensures key in after.cases && after.cases[key].requestId == id
  {
    SyncedCaseOf(before, key, id);
    assert Lookup(after.cases, key) == SyncedCase(before, key);
  }

  /** A paused request has its pause case, open unless an operator resolved it for this very state. */
  lemma PausedRequestsAreFiled(before: Tables, after: Tables, id: string)
    requires Synced(before, after) && id in before.requests && before.requests[id].paused
    ensures var key := CaseKey(RequestPaused, id);
            && Wanted(after.requests, key, id) && key in after.cases
            && (IsOpen(after.cases[key].status) <==>
                  !(key in before.cases && !IsOpen(before.cases[key].status)
                    && before.cases[key].resolvedFingerprint == Some(Fingerprint(before.requests[id]))))
  {
    var key := CaseKey(RequestPaused, id);
    SyncedCaseOf(before, key, id);
    assert Lookup(after.cases, key) == SyncedCase(before, key);
  }

  /** After an allowed pause the request is paused and filed as such. */
  lemma PausingFiles(before: Tables, opening: Tables, key: string, reason: string, after: Tables)
    requires Synced(before, opening) && Allowed(opening, key, Pause, None)
    requires Step(before, Act(key, Pause, reason, None), after)
    ensures var id := opening.cases[key].requestId;
            var paused := CaseKey(RequestPaused, id);
            && id in after.requests && after.requests[id].paused
            && Wanted(after.requests, paused, id) && paused in after.cases
            && (IsOpen(after.cases[paused].status) <==>
                  !(paused != key && paused in opening.cases && !IsOpen(opening.cases[paused].status)
                    && opening.cases[paused].resolvedFingerprint == Some(Fingerprint(after.requests[id]))))
  {
    ActionOutcome(before, opening, key, Pause, reason, None, after);
    AllowedActionIsApplied(before, opening, key, Pause, reason, None, after);
    PausedRequestsAreFiled(Applied(opening, key, Pause, reason, None), after, opening.cases[key].requestId);
  }

  /** The case is open with this status and reason, and its request wants it. */
  ghost predicate InHand(t: Tables, key: string, id: string, status: CaseStatus, reason: Option<string>) {
    && Wanted(t.requests, key, id) && IsOpen(status)
    && key in t.cases && t.cases[key].status == status && t.cases[key].reason == reason
  }

  lemma StepKeepsInHand(before: Tables, e: Event, after: Tables, key: string, id: string, status: CaseStatus, reason: Option<string>)
    requires Step(before, e, after) && InHand(before, key, id, status, reason)
    requires e.Act? ==> e.key != key
    requires Wanted(after.requests, key, id)
    ensures InHand(after, key, id, status, reason)
  {
    match e
    case Sync => SyncKeepsOpenCases(before, after, key, id);
    case Change(_) =>
    case Act(other, action, why, paid) =>
      var opening: Tables :| Synced(before, opening)
        && if Allowed(opening, other, action, paid)
           then Synced(Applied(opening, other, action, why, paid), after) else after == opening;
      SyncKeepsOpenCases(before, opening, key, id);
      if Allowed(opening, other, action, paid) {
        SyncKeepsOpenCases(Applied(opening, other, action, why, paid), after, key, id);
      }
  }

  /**
   * An open case keeps its exact status and reason through any run of syncs, request changes and
   * actions on other cases, as long as its request wants it.
   */
  lemma {:induction false} OpenCasesStayInHand(states: seq<Tables>, events: seq<Event>, key: string, id: string, status: CaseStatus, reason: Option<string>)
    requires IsRun(states, events) && InHand(states[0], key, id, status, reason)
    requires forall i :: 0 <= i < |events| && events[i].Act? ==> events[i].key != key
    requires forall i :: 0 <= i < |states| ==> Wanted(states[i].requests, key, id)
    ensures InHand(states[|events|], key, id, status, reason)
    decreases |events|
  {
    if events != [] {
      OpenCasesStayInHand(states[..|events|], events[..|events| - 1], key, id, status, reason);
      StepKeepsInHand(states[|events| - 1], events[|events| - 1], states[|events|], key, id, status, reason);
    }
  }

  /** What an operator has annotated stays under investigation until its request stops wanting the case or somebody acts. */
  lemma {:induction false} AnnotationsStick(before: Tables, opening: Tables, key: string, note: string, states: seq<Tables>, events: seq<Event>)
    requires Synced(before, opening) && Allowed(opening, key, Annotate, None)
    requires IsRun(states, events) && Step(before, Act(key, Annotate, note, None), states[0])
    requires forall i :: 0 <= i < |events| && events[i].Act? ==> events[i].key != key
    requires forall i :: 0 <= i < |states| ==> Wanted(states[i].requests, key, opening.cases[key].requestId)
    ensures key in states[|events|].cases
    ensures states[|events|].cases[key].status == Investigating && states[|events|].cases[key].reason == None
  {
    ActionOutcome(before, opening, key, Annotate, note, None, states[0]);
    OpenCasesStayInHand(states, events, key, opening.cases[key].requestId, Investigating, None);
  }

  // ---------------------------------------------------------------------------------------------
  // Sticky resolutions
  // ---------------------------------------------------------------------------------------------

  /** The case was resolved by an operator, for this reason, while the request looked like `s`. */
  ghost predicate Sticky(t: Tables, key: string, id: string, s: Signal, reason: string) {
    && Wanted(t.requests, key, id) && t.requests[id] == s
    && key in t.cases
    && t.cases[key].status == Resolved && t.cases[key].reason == Some(reason)
    && t.cases[key].resolvedFingerprint == Some(Fingerprint(s))
  }

  lemma SyncKeepsSticky(before: Tables, after: Tables, key: string, id: string, s: Signal, reason: string)
    requires Synced(before, after) && Sticky(before, key, id, s, reason)
    ensures Sticky(after, key, id, s, reason)
  {
    SyncedCaseOf(before, key, id);
    assert Lookup(after.cases, key) == SyncedCase(before, key);
  }

  /** Resolving an open case makes it sticky for the state it was resolved in. */
  lemma ResolvingIsSticky(before: Tables, opening: Tables, after: Tables, key: string, reason: string)
    requires Synced(before, opening) && Allowed(opening, key, Resolve, None)
    requires Synced(Applied(opening, key, Resolve, reason, None), after)
    ensures var id := opening.cases[key].requestId;
            Sticky(after, key, id, opening.requests[id], reason)
  {
    var id := opening.cases[key].requestId;
    OpenCasesAreWanted(before, opening, key);
    SyncedCaseOf(before, key, id);
    assert Lookup(opening.cases, key) == SyncedCase(before, key);
    var applied := Applied(opening, key, Resolve, reason, None);
    assert applied.requests == opening.requests;
    SyncKeepsSticky(applied, after, key, id, opening.requests[id], reason);
  }

  lemma StepKeepsSticky(before: Tables, e: Event, after: Tables, key: string, id: string, s: Signal, reason: string)
    requires Step(before, e, after) && Sticky(before, key, id, s, reason)
    requires e.Act? ==> e.key != key
    requires id in after.requests && after.requests[id] == s
    ensures Sticky(after, key, id, s, reason)
  {
    match e
    case Sync => SyncKeepsSticky(before, after, key, id, s, reason);
    case Change(_) =>
    case Act(other, action, why, paid) =>
      var opening: Tables :| Synced(before, opening)
        && if Allowed(opening, other, action, paid)
           then Synced(Applied(opening, other, action, why, paid), after) else after == opening;
      SyncKeepsSticky(before, opening, key, id, s, reason);
      if Allowed(opening, other, action, paid) {
        SyncKeepsSticky(Applied(opening, other, action, why, paid), after, key, id, s, reason);
      }
  }

  /**
   * A case an operator resolved stays resolved with the same reason through any run of syncs,
   * request changes and actions on other cases, as long as its request looks the same.
   */
  lemma {:induction false} ResolutionSticks(states: seq<Tables>, events: seq<Event>, key: string, id: string, s: Signal, reason: string)
    requires IsRun(states, events) && Sticky(states[0], key, id, s, reason)
    requires forall i :: 0 <= i < |events| && events[i].Act? ==> events[i].key != key
    requires forall i :: 0 <= i < |states| ==> id in states[i].requests && states[i].requests[id] == s
    ensures Sticky(states[|events|], key, id, s, reason)
    decreases |events|
  {
    if events != [] {
      ResolutionSticks(states[..|events|], events[..|events| - 1], key, id, s, reason);
      StepKeepsSticky(states[|events| - 1], events[|events| - 1], states[|events|], key, id, s, reason);
    }
  }

  /**
   * A sync that still wants an operator-resolved case leaves it resolved exactly when the request
   * looks as it did then; any other state of the same category reopens it and clears the reason.
   */
  lemma ReopensExactlyOnChange(before: Tables, after: Tables, key: string, id: string, s: Signal)
    requires Synced(before, after) && Wanted(before.requests, key, id)
    requires key in before.cases && before.cases[key].status == Resolved
    requires before.cases[key].resolvedFingerprint == Some(Fingerprint(s))
    ensures key in after.cases
    ensures after.cases[key].status == Resolved <==> before.requests[id] == s
    ensures before.requests[id] == s ==> after.cases[key].reason == before.cases[key].reason
    ensures before.requests[id] != s ==>
              IsOpen(after.cases[key].status) && after.cases[key].reason == None && Lookup(after.unread, key) == Some(true)
  {
    SyncedCaseOf(before, key, id);
    assert Lookup(after.cases, key) == SyncedCase(before, key);
    assert Lookup(after.unread, key) == SyncedUnread(before, key);
    if Fingerprint(before.requests[id]) == Fingerprint(s) {
      FingerprintIsInjective(before.requests[id], s);
    }
  }

  // ---------------------------------------------------------------------------------------------
  // Halfway through a sync
  // ---------------------------------------------------------------------------------------------

  ghost predicate Unwanted(requests: map<string, Signal>, key: string) {
    forall id :: !Wanted(requests, key, id)
  }

  /** `active` holds the keys wanted by the requests already visited. */
  ghost predicate Covers(requests: map<string, Signal>, todo: set<string>, active: set<string>) {
    && (forall key :: key in active ==> exists id :: id !in todo && Wanted(requests, key, id))
    && (forall key, id :: id !in todo && Wanted(requests, key, id) ==> key in active)
  }

  lemma CoversNext(requests: map<string, Signal>, todo: set<string>, active: set<string>, id: string)
    requires Covers(requests, todo, active) && id in todo && todo <= requests.Keys
    ensures DesiredKey(requests, id).None? ==> Covers(requests, todo - {id}, active)
    ensures DesiredKey(requests, id).Some? ==> Covers(requests, todo - {id}, active + {DesiredKey(requests, id).value})
  {
    var next := if DesiredKey(requests, id).Some? then active + {DesiredKey(requests, id).value} else active;
    forall key | key in next ensures exists other :: other !in todo - {id} && Wanted(requests, key, other) {
      if key in active {
        var other :| other !in todo && Wanted(requests, key, other);
        assert other !in todo - {id};
      } else {
        assert Wanted(requests, key, id);
      }
    }
  }

  lemma KeyIsFresh(requests: map<string, Signal>, todo: set<string>, active: set<string>, key: string, id: string)
    requires Covers(requests, todo, active) && id in todo && Wanted(requests, key, id)
    ensures key !in active
  {
    if key in active {
      var other :| other !in todo && Wanted(requests, key, other);
      WantedIsUnique(requests, key, id, other);
    }
  }

  /** The keys in `active` are as the sync leaves them; all others are untouched. */
  ghost predicate Progress(before: Tables, now: Tables, active: set<string>) {
    && now.requests == before.requests
    && forall key: string ::
         if key in active
         then Lookup(now.cases, key) == SyncedCase(before, key) && Lookup(now.unread, key) == SyncedUnread(before, key)
         else Lookup(now.cases, key) == Lookup(before.cases, key) && Lookup(now.unread, key) == Lookup(before.unread, key)
  }

  /** Only the keys in `pending` still have to be resolved. */
  ghost predicate SyncedExcept(before: Tables, now: Tables, pending: set<string>) {
    && now.requests == before.requests
    && forall key: string :: key !in pending ==>
         Lookup(now.cases, key) == SyncedCase(before, key) && Lookup(now.unread, key) == SyncedUnread(before, key)
  }

  ghost predicate Lapsing(before: Tables, pending: set<string>) {
    forall key :: key in pending ==>
      key in before.cases && IsOpen(before.cases[key].status) && Unwanted(before.requests, key)
  }

  lemma ProgressNext(before: Tables, now: Tables, active: set<string>, key: string, next: Case)
    requires Progress(before, now, active)
    requires SyncedCase(before, key) == Some(next) && exists id :: Wanted(before.requests, key, id)
    ensures Progress(before, now.(cases := now.cases[key := next], unread := now.unread[key := IsOpen(next.status)]), active + {key})
  {
  }

  lemma SyncedExceptNext(before: Tables, now: Tables, pending: set<string>, key: string)
    requires SyncedExcept(before, now, pending) && Lapsing(before, pending) && key in pending
    ensures SyncedExcept(before, now.(cases := now.cases[key := Lapsed(before.cases[key])], unread := now.unread[key := false]), pending - {key})
  {
  }

  /** After a sync the new cases are those of the visited keys. */
  lemma OpenedAreNew(before: Tables, after: Tables, active: set<string>)
    requires Synced(before, after) && Covers(before.requests, {}, active)
    ensures after.cases.Keys - before.cases.Keys == active - before.cases.Keys
  {
    forall key: string ensures key in after.cases && key !in before.cases <==> key in active && key !in before.cases {
      assert Lookup(after.cases, key) == SyncedCase(before, key);
      if key in active {
        var id :| Wanted(before.requests, key, id);
      }
    }
  }

  lemma LapseRemains(before: Tables, now: Tables, active: set<string>, stale: set<string>)
    requires Covers(before.requests, {}, active) && Progress(before, now, active)
    requires stale == set key | key in before.cases && IsOpen(before.cases[key].status) && key !in active
    ensures Lapsing(before, stale)
    ensures SyncedExcept(before, now, stale)
  {
    forall key: string | key !in active ensures Unwanted(before.requests, key) {}
  }

  // ---------------------------------------------------------------------------------------------
  // Audit rows
  // ---------------------------------------------------------------------------------------------

  /** One row each, in any order: the cases `started` and the cases `resolved`, nothing else. */
  ghost predicate Rows(log: seq<Audit>, started: set<string>, resolved: set<string>) {
    && (forall i, j :: 0 <= i < j < |log| ==> log[i] != log[j])
    && (forall a :: a in log <==> (a.CaseOpened? && a.key in started) || (a.CaseResolved? && a.key in resolved))
  }

  lemma OneMoreRow(log: seq<Audit>, started: set<string>, resolved: set<string>, key: string)
    requires Rows(log, started, resolved)
    ensures key !in started ==> Rows(log + [CaseOpened(key)], started + {key}, resolved)
    ensures key !in resolved ==> Rows(log + [CaseResolved(key)], started, resolved + {key})
  {
  }

  lemma FilingRow(audit: seq<Audit>, written: nat, active: set<string>, existing: set<string>, key: string)
    requires written <= |audit| && Rows(audit[written..], active - existing, {}) && key !in active
    ensures Rows((if key in existing then audit else audit + [CaseOpened(key)])[written..], active + {key} - existing, {})
  {
    if key in existing {
      assert active + {key} - existing == active - existing;
    } else {
      assert active + {key} - existing == active - existing + {key};
      assert (audit + [CaseOpened(key)])[written..] == audit[written..] + [CaseOpened(key)];
      OneMoreRow(audit[written..], active - existing, {}, key);
    }
  }

  lemma SyncIsAudited(before: Tables, after: Tables, log: seq<Audit>, active: set<string>, stale: set<string>)
    requires Synced(before, after) && Covers(before.requests, {}, active)
    requires stale == set key | key in before.cases && IsOpen(before.cases[key].status) && key !in active
    requires Rows(log, active - before.cases.Keys, stale) && Lapsing(before, stale)
    ensures Audited(before, after, log)
    ensures Synced(before, before) ==> log == []
  {
    OpenedAreNew(before, after, active);
    QuietSyncWritesNothing(before, after, log, active - before.cases.Keys, stale);
    forall key ensures key in stale <==> key in before.cases && IsOpen(before.cases[key].status) && Unwanted(before.requests, key) {
      if key in active {
        var id :| Wanted(before.requests, key, id);
      }
    }
  }

  lemma QuietSyncWritesNothing(before: Tables, after: Tables, log: seq<Audit>, started: set<string>, resolved: set<string>)
    requires Synced(before, after) && Rows(log, started, resolved)
    requires started == after.cases.Keys - before.cases.Keys && Lapsing(before, resolved)
    ensures Synced(before, before) ==> log == []
  {
    assert log != [] ==> log[0] in log;
    if Synced(before, before) {
      SyncIsDeterministic(before, before, after);
      forall key | key in resolved ensures false {
        SyncEndsCases(before, before, key);
      }
    }
  }

  /** The rows a sync writes: every case that is new was opened, every open case nobody wants was resolved. */
  ghost predicate Audited(before: Tables, after: Tables, log: seq<Audit>) {
    exists resolved: set<string> ::
      && (forall key :: key in resolved <==> key in before.cases && IsOpen(before.cases[key].status) && Unwanted(before.requests, key))
      && Rows(log, after.cases.Keys - before.cases.Keys, resolved)
  }

  // ---------------------------------------------------------------------------------------------
  // The tables, updated in place
  // ---------------------------------------------------------------------------------------------

  class OperatorDesk {
    var requests: map<string, Signal>
    var cases: map<string, Case>
    var unread: map<string, bool>
    var audit: seq<Audit>

    ghost function State(): Tables
      reads this
    {
      Tables(requests, cases, unread)
    }

    constructor (requests: map<string, Signal>)
      ensures State() == Tables(requests, map[], map[]) && audit == []
    {
      this.requests, cases, unread, audit := requests, map[], map[], [];
    }

    /** Write a wanted case and its notification; a new one is audited. */
    method FileCase(key: string, next: Case, isNew: bool)
      modifies this`cases, this`unread, this`audit
      ensures cases == old(cases)[key := next] && unread == old(unread)[key := IsOpen(next.status)]
      ensures audit == if isNew then old(audit) + [CaseOpened(key)] else old(audit)
    {
      cases := cases[key := next];
      unread := unread[key := IsOpen(next.status)];
      if isNew {
        audit := audit + [CaseOpened(key)];
      }
    }

    /** First pass: file a case for every request that needs one. */
    method FileWantedCases(existing: map<string, Case>) returns (active: set<string>)
      requires existing == cases
      modifies this`cases, this`unread, this`audit
      ensures Covers(requests, {}, active)
      ensures Progress(old(State()), State(), active)
      ensures old(audit) <= audit && Rows(audit[|old(audit)|..], active - existing.Keys, {})
    {
      ghost var before := State();
      ghost var written := |audit|;
      active := {};
      var todo := requests.Keys;
      while todo != {}
        invariant todo <= requests.Keys
        invariant Covers(requests, todo, active)
        invariant Progress(before, State(), active)
        invariant old(audit) <= audit && Rows(audit[written..], active - existing.Keys, {})
        decreases todo
      {
        var id :| id in todo;
        var c := Classify(requests[id]);
        CoversNext(requests, todo, active, id);
        if c.Some? {
          var key := CaseKey(c.value.category, id);
          SyncedCaseOf(before, key, id);
          KeyIsFresh(requests, todo, active, key, id);
          var next := Refreshed(Lookup(existing, key), id, requests[id], c.value);
          ProgressNext(before, State(), active, key, next);
          FilingRow(audit, written, active, existing.Keys, key);
          FileCase(key, next, key !in existing);
          active := active + {key};
        }
        todo := todo - {id};
      }
    }

    /** Reconcile: one pass over the requests, one over the cases that were open before. */
    method SyncOperatorCases()
      modifies this`cases, this`unread, this`audit
      ensures Synced(old(State()), State())
      ensures Synced(old(State()), old(State())) ==> audit == old(audit)
      ensures old(audit) <= audit && Audited(old(State()), State(), audit[|old(audit)|..])
    {
      ghost var before := State();
      var existing := cases;
      var active := FileWantedCases(existing);
      var stale := set key | key in existing && IsOpen(existing[key].status) && key !in active;
      LapseRemains(before, State(), active, stale);
      ResolveStaleCases(before, existing, stale, active - existing.Keys, |old(audit)|);
      SyncIsAudited(before, State(), audit[|old(audit)|..], active, stale);
    }

    method ResolveStaleCases(ghost before: Tables, existing: map<string, Case>, pending: set<string>, ghost started: set<string>, ghost written: nat)
      requires before.cases == existing && Lapsing(before, pending)
      requires SyncedExcept(before, State(), pending)
      requires written <= |audit| && Rows(audit[written..], started, {})
      modifies this`cases, this`unread, this`audit
      ensures Synced(before, State())
      ensures old(audit) <= audit && Rows(audit[written..], started, pending)
    {
      var stale := pending;
      while stale != {}
        invariant stale <= pending
        invariant SyncedExcept(before, State(), stale)
        invariant old(audit) <= audit && Rows(audit[written..], started, pending - stale)
        decreases stale
      {
        var key :| key in stale;
        SyncedExceptNext(before, State(), stale, key);
        OneMoreRow(audit[written..], started, pending - stale, key);
        assert pending - (stale - {key}) == (pending - stale) + {key};
        assert (audit + [CaseResolved(key)])[written..] == audit[written..] + [CaseResolved(key)];
        stale := stale - {key};
        cases := cases[key := existing[key].(status := Resolved, reason := Some(existing[key].reason.GetOr(LAPSED)))];
        unread := unread[key := false];
        audit := audit + [CaseResolved(key)];
      }
    }

    /** The writes of an allowed action, to the request, the case and its notification. */
    method ApplyAction(key: string, action: Action, reason: string, paid: Option<Signal>)
      requires Allowed(State(), key, action, paid)
      modifies this
      ensures State() == Applied(old(State()), key, action, reason, paid)
      ensures audit == old(audit) + [CaseActed(key)]
    {
      var c := cases[key];
      var s := requests[c.requestId];
      match action {
        case Pause => requests := requests[c.requestId := s.(paused := true)];
        case Release => requests := requests[c.requestId := s.(paused := false)];
        case Requeue => requests := requests[c.requestId := paid.value];
        case Annotate => requests := requests[c.requestId := s];
        case Resolve => requests := requests[c.requestId := s];
      }
      if action == Resolve {
        cases := cases[key := c.(status := Resolved, reason := Some(reason), resolvedFingerprint := c.fingerprint)];
      } else {
        cases := cases[key := c.(status := if action == Pause then ActionRequired else Investigating, reason := None)];
      }
      if key in unread {
        unread := unread[key := action != Resolve];
      }
      audit := audit + [CaseActed(key)];
    }

    method PerformCaseAction(key: string, action: Action, reason: string, paid: Option<Signal>) returns (done: bool)
      modifies this
      ensures Step(old(State()), Act(key, action, reason, paid), State())
      ensures exists opening: Tables :: Synced(old(State()), opening) && (done <==> Allowed(opening, key, action, paid))
      ensures old(audit) <= audit && (done ==> CaseActed(key) in audit[|old(audit)|..])
    {
      SyncOperatorCases();
      ghost var opening := State();
      if key !in cases || cases[key].requestId !in requests
         || action !in AvailableActions(cases[key].status, requests[cases[key].requestId])
         || (action == Requeue && paid.None?)
      {
        return false;
      }
      ghost var written := |audit|;
      ApplyAction(key, action, reason, paid);
      assert State() == Applied(opening, key, action, reason, paid);
      assert audit[written] == CaseActed(key);
      SyncOperatorCases();
      return true;
    }
  }
}
