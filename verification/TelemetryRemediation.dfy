/**
 * How the control plane reads its append-only telemetry-remediation log.
 *
 * Reports are written one at a time and read back through a listing that sorts them newest first
 * and keeps the first twelve.  Owner, follow-up timer, owner follow-through, accountability and
 * the need for an automatic escalation are all re-derived from that listing.
 */
module TelemetryRemediation {
  import opened Basics

  // ---------------------------------------------------------------------------------------------
  // Data
  // ---------------------------------------------------------------------------------------------

  datatype ActionKind = Acknowledged | Assigned | Transferred | Reacknowledged | Escalated | Resolved

  const OWNERSHIP: set<ActionKind> := {Acknowledged, Assigned, Transferred, Reacknowledged}
  const ASSIGNMENT: set<ActionKind> := {Assigned, Transferred}

  datatype EventKind = OperatorAction(kind: ActionKind) | AutomationRun

  /** Something the owner did, as follow-through and accountability report it. */
  datatype OwnerEvent = OwnerEvent(at: int, kind: EventKind)

  datatype Outcome = Met | Unmet

  datatype Accountability = Accountability(
    outcome: Outcome, owner: string, evaluatedAt: int, trigger: ActionKind, lastOwnerEvent: Option<OwnerEvent>)

  datatype Report = Report(
    kind: ActionKind, at: int, actor: string, owner: Option<string>, accountability: Option<Accountability>)

  datatype RecoveryStatus = NotRequested | NoRecovery | RecoveryFailed | Recovered | Partial | Unchanged

  datatype Run = Run(
    at: int, actor: Option<string>, failed: bool, recoverPolicy: bool, recovery: RecoveryStatus)

  /** Everything a status evaluation reads besides the remediation log; runs are newest first. */
  datatype Signals = Signals(ownership: seq<Health>, runs: seq<Run>)

  datatype Config = Config(followUpMinutes: int, escalationThreshold: int)

  datatype OwnershipStatus = Unassigned | Owned | Closed

  datatype Ownership = Ownership(
    status: OwnershipStatus, actor: Option<string>, assignedBy: Option<string>,
    handoff: Option<ActionKind>, updatedAt: Option<int>)

  datatype FollowUpStatus = FollowUpReady | FollowUpWarning | FollowUpCritical

  datatype FollowUp = FollowUp(status: FollowUpStatus, ageMinutes: Option<int>)

  datatype FollowThroughStatus = NotOwned | Acted | Pending | ThroughWarning | ThroughCritical

  datatype FollowThrough = FollowThrough(
    status: FollowThroughStatus, owner: Option<string>, assignedAt: Option<int>, lastOwnerEvent: Option<OwnerEvent>)

  datatype Posture = Ready | ActionRequired | EscalatedPosture

  datatype Recommendation = NoAction | RunRecovery | RunRecoveryAndDispatch

  datatype Remediation = Remediation(posture: Posture, recommendation: Recommendation)

  datatype Status = Status(
    remediation: Remediation, ownership: Ownership, followUp: FollowUp, recent: seq<Report>, runs: seq<Run>)

  // ---------------------------------------------------------------------------------------------
  // The listing
  // ---------------------------------------------------------------------------------------------

  /** The listing keeps this many reports. */
  const WINDOW: nat := 12

  /** The newest `limit` reports of a log kept oldest first, newest first. */
  function Newest(log: seq<Report>, limit: nat): (listing: seq<Report>)
    ensures |listing| == Min(|log|, limit)
    ensures forall i :: 0 <= i < |listing| ==> listing[i] == log[|log| - 1 - i]
  {
    if log == [] || limit == 0 then []
    else [log[|log| - 1]] + Newest(log[..|log| - 1], limit - 1)
  }

  /** First entry of a listing whose kind is among `kinds`. */
  function FindLatest(listing: seq<Report>, kinds: set<ActionKind>): (found: Option<Report>)
  {
    if listing == [] then None
    else if listing[0].kind in kinds then Some(listing[0])
    else FindLatest(listing[1..], kinds)
  }

  predicate HandsOverTo(owner: string, report: Report) {
    report.kind in ASSIGNMENT && report.owner == Some(owner)
  }

  /** The first, so latest, hand-over to a named owner in a listing. */
  function FindLatestAssignment(owner: string, listing: seq<Report>): (found: Option<Report>)
    ensures found.Some? ==>
              exists i :: 0 <= i < |listing| && found.value == listing[i] && HandsOverTo(owner, listing[i])
                          && forall k :: 0 <= k < i ==> !HandsOverTo(owner, listing[k])
    ensures found.None? ==> forall r :: r in listing ==> !HandsOverTo(owner, r)
  {
    if listing == [] then None
    else if HandsOverTo(owner, listing[0]) then Some(listing[0])
    else
      var later := FindLatestAssignment(owner, listing[1..]);
      assert forall i :: 0 <= i < |listing| - 1 ==> listing[1..][i] == listing[i + 1];
      later
  }

  /** Position of the newest report of a full log whose kind is among `kinds`, or -1. */
  function NewestIndex(log: seq<Report>, kinds: set<ActionKind>): (index: int)
    ensures -1 <= index < |log|
    ensures 0 <= index ==> log[index].kind in kinds
    ensures forall i :: index < i < |log| ==> log[i].kind !in kinds
  {
    if log == [] then -1
    else if log[|log| - 1].kind in kinds then |log| - 1
    else NewestIndex(log[..|log| - 1], kinds)
  }

  /**
   * The exact meaning of looking through a truncated listing, for every log: the newest matching
   * report is found if and only if it is among the newest `limit` reports.
   */
  lemma {:induction false} FindLatestInWindow(log: seq<Report>, kinds: set<ActionKind>, limit: nat)
    ensures var index := NewestIndex(log, kinds);
            FindLatest(Newest(log, limit), kinds) ==
            if 0 <= index && |log| - limit <= index then Some(log[index]) else None
  {
    if log != [] && limit != 0 {
      var front := log[..|log| - 1];
      var listing := Newest(log, limit);
      assert listing == [log[|log| - 1]] + Newest(front, limit - 1);
      assert listing[1..] == Newest(front, limit - 1);
      FindLatestInWindow(front, kinds, limit - 1);
    }
  }

  lemma NewestIndexIsUnique(log: seq<Report>, kinds: set<ActionKind>, index: int)
    requires -1 <= index < |log|
    requires 0 <= index ==> log[index].kind in kinds
    requires forall i :: index < i < |log| ==> log[i].kind !in kinds
    ensures NewestIndex(log, kinds) == index
  {
  }

  // ---------------------------------------------------------------------------------------------
  // Derivations
  // ---------------------------------------------------------------------------------------------

  function CurrentOwner(report: Report): string {
    report.owner.GetOr(report.actor)
  }

  function OwnedBy(report: Report): Ownership {
    Ownership(Owned, Some(CurrentOwner(report)),
              if report.kind in ASSIGNMENT then Some(report.actor) else None,
              Some(report.kind), Some(report.at))
  }

  const UNASSIGNED := Ownership(Unassigned, None, None, None, None)

  /**
   * Who owns the remediation.  While signals are healthy a resolution in the listing wins, even an
   * older one; while they are degraded a resolution is ignored and the newest owner stands.
   */
  function BuildOwnership(ready: bool, listing: seq<Report>): Ownership {
    var latestOwnership := FindLatest(listing, OWNERSHIP);
    var latestResolution := FindLatest(listing, {Resolved});
    if latestOwnership.None? && latestResolution.None? then UNASSIGNED
    else if ready && latestResolution.Some? then
      Ownership(Closed, Some(latestResolution.value.actor), None,
                Some(latestResolution.value.kind), Some(latestResolution.value.at))
    else if latestOwnership.Some? then OwnedBy(latestOwnership.value)
    else UNASSIGNED
  }

  predicate AllHealthy(ownership: seq<Health>) {
    forall i :: 0 <= i < |ownership| ==> ownership[i].Healthy?
  }

  function FollowUpThreshold(config: Config): int {
    Max(1, config.followUpMinutes)
  }

  function BuildFollowUp(config: Config, health: seq<Health>, ownership: Ownership, now: int): FollowUp {
    if AllHealthy(health) then FollowUp(FollowUpReady, None)
    else if !ownership.status.Owned? || ownership.updatedAt.None? then FollowUp(FollowUpReady, None)
    else
      var threshold := FollowUpThreshold(config);
      var age := AgeMinutes(now, ownership.updatedAt.value);
      if age <= threshold then FollowUp(FollowUpReady, Some(age))
      else if age <= threshold * 2 then FollowUp(FollowUpWarning, Some(age))
      else FollowUp(FollowUpCritical, Some(age))
  }

  predicate IsBreach(run: Run) {
    run.recoverPolicy && (run.failed || run.recovery in {RecoveryFailed, Partial, Unchanged})
  }

  /** Length of the leading stretch of breached runs. */
  function LeadingBreaches(runs: seq<Run>): (count: nat)
    ensures count <= |runs|
    ensures forall i :: 0 <= i < count ==> IsBreach(runs[i])
    ensures count < |runs| ==> !IsBreach(runs[count])
  {
    if runs == [] || !IsBreach(runs[0]) then 0 else 1 + LeadingBreaches(runs[1..])
  }

  /** The counting loop stops at the first run that met its target. */
  method CountConsecutiveBreaches(runs: seq<Run>) returns (count: nat)
    ensures count == LeadingBreaches(runs)
  {
    count := 0;
    while count < |runs|
      invariant count <= |runs|
      invariant LeadingBreaches(runs) == count + LeadingBreaches(runs[count..])
    {
      if !IsBreach(runs[count]) {
        break;
      }
      assert runs[count..][1..] == runs[count + 1..];
      count := count + 1;
    }
  }

  predicate RecoveryEscalated(config: Config, runs: seq<Run>) {
    LeadingBreaches(runs) >= Max(1, config.escalationThreshold)
  }

  function BuildRemediation(config: Config, signals: Signals, followUp: Option<FollowUpStatus>): Remediation {
    if |signals.runs| > 0 && signals.runs[0].recoverPolicy && signals.runs[0].failed then
      Remediation(EscalatedPosture, RunRecoveryAndDispatch)
    else if RecoveryEscalated(config, signals.runs) then
      Remediation(EscalatedPosture, RunRecoveryAndDispatch)
    else if followUp == Some(FollowUpCritical) then
      Remediation(EscalatedPosture, RunRecoveryAndDispatch)
    else if followUp == Some(FollowUpWarning) then
      Remediation(ActionRequired, RunRecovery)
    else if !AllHealthy(signals.ownership) then
      Remediation(ActionRequired, RunRecovery)
    else
      Remediation(Ready, NoAction)
  }

  /** One evaluation of the automation status over the newest `limit` reports. */
  function Evaluate(config: Config, signals: Signals, log: seq<Report>, limit: nat, now: int): Status {
    var recent := Newest(log, limit);
    var initial := BuildRemediation(config, signals, None);
    var ownership := BuildOwnership(initial.posture.Ready?, recent);
    var followUp := BuildFollowUp(config, signals.ownership, ownership, now);
    Status(BuildRemediation(config, signals, Some(followUp.status)), ownership, followUp, recent, signals.runs)
  }

  function FollowUpSeverity(status: FollowUpStatus): nat {
    match status
    case FollowUpReady => 0
    case FollowUpWarning => 1
    case FollowUpCritical => 2
  }

  /** Waiting never makes a follow-up less urgent. */
  lemma FollowUpOnlyAges(config: Config, health: seq<Health>, ownership: Ownership, earlier: int, later: int)
    requires earlier <= later
    ensures FollowUpSeverity(BuildFollowUp(config, health, ownership, earlier).status) <=
            FollowUpSeverity(BuildFollowUp(config, health, ownership, later).status)
  {
    if ownership.updatedAt.Some? {
      assert AgeMinutes(earlier, ownership.updatedAt.value) <= AgeMinutes(later, ownership.updatedAt.value);
    }
  }

  function PostureSeverity(posture: Posture): nat {
    match posture
    case Ready => 0
    case ActionRequired => 1
    case EscalatedPosture => 2
  }

  /**
   * Taking the follow-up into account only ever raises the posture, so what the final remediation
   * calls healthy was healthy when the owner was derived; and no action is recommended exactly then.
   */
  lemma FollowUpOnlyRaises(config: Config, signals: Signals, followUp: FollowUpStatus)
    ensures var without := BuildRemediation(config, signals, None);
            var with := BuildRemediation(config, signals, Some(followUp));
            && PostureSeverity(without.posture) <= PostureSeverity(with.posture)
            && (with.recommendation.NoAction? <==> with.posture.Ready?)
            && (with.posture.Ready? <==> without.posture.Ready? && followUp.FollowUpReady?)
            && (without.posture.Ready? ==> AllHealthy(signals.ownership))
  {
  }

  /** A run that met its recovery target, or had none. */
  predicate MetTarget(run: Run) {
    !run.recoverPolicy || (!run.failed && run.recovery in {NotRequested, NoRecovery, Recovered})
  }

  /** As many runs in a row as the threshold says, at least one, fell short of their target. */
  ghost predicate RepeatedlyBreached(config: Config, runs: seq<Run>) {
    && 1 <= |runs| && config.escalationThreshold <= |runs|
    && !MetTarget(runs[0])
    && forall i :: 0 <= i < config.escalationThreshold ==> !MetTarget(runs[i])
  }

  /** Nothing calls for an operator but, possibly, an overdue follow-up. */
  ghost predicate InOrder(config: Config, signals: Signals) {
    && (forall i :: 0 <= i < |signals.ownership| ==> signals.ownership[i] == Healthy)
    && !(|signals.runs| > 0 && signals.runs[0].recoverPolicy && signals.runs[0].failed)
    && !RepeatedlyBreached(config, signals.runs)
  }

  /**
   * What the remediation says, exactly: ready when everything is in order and no follow-up is due,
   * escalated after a failed recovery, repeated breaches or a critical follow-up.
   */
  lemma RemediationIsExactly(config: Config, signals: Signals, followUp: Option<FollowUpStatus>)
    ensures var r := BuildRemediation(config, signals, followUp);
            && (r.posture == Ready <==> InOrder(config, signals) && followUp in {None, Some(FollowUpReady)})
            && (r.posture == EscalatedPosture <==>
                  || (|signals.runs| > 0 && signals.runs[0].recoverPolicy && signals.runs[0].failed)
                  || RepeatedlyBreached(config, signals.runs)
                  || followUp == Some(FollowUpCritical))
            && (r.recommendation == NoAction <==> r.posture == Ready)
            && (r.recommendation == RunRecoveryAndDispatch <==> r.posture == EscalatedPosture)
  {
    RepeatedBreachesEscalate(config, signals.runs);
    assert AllHealthy(signals.ownership) <==> forall i :: 0 <= i < |signals.ownership| ==> signals.ownership[i] == Healthy;
    hide AllHealthy, RecoveryEscalated, RepeatedlyBreached;
    match followUp
    case None =>
    case Some(FollowUpReady) =>
    case Some(FollowUpWarning) =>
    case Some(FollowUpCritical) =>
  }

  lemma BreachesFellShort(run: Run)
    ensures IsBreach(run) <==> !MetTarget(run)
  {
    match run.recovery
    case NotRequested =>
    case NoRecovery =>
    case RecoveryFailed =>
    case Recovered =>
    case Partial =>
    case Unchanged =>
  }

  lemma RepeatedBreachesEscalate(config: Config, runs: seq<Run>)
    ensures RecoveryEscalated(config, runs) <==> RepeatedlyBreached(config, runs)
  {
    forall i | 0 <= i < |runs| ensures IsBreach(runs[i]) <==> !MetTarget(runs[i]) {
      BreachesFellShort(runs[i]);
    }
    if RepeatedlyBreached(config, runs) && LeadingBreaches(runs) < |runs| {
      assert MetTarget(runs[LeadingBreaches(runs)]);
    }
  }

  /** When a follow-up is due, exactly: an owner of degraded telemetry has waited longer than once or twice the threshold. */
  lemma FollowUpIsExactly(config: Config, health: seq<Health>, ownership: Ownership, now: int)
    ensures var followUp := BuildFollowUp(config, health, ownership, now);
            var threshold := if config.followUpMinutes < 1 then 1 else config.followUpMinutes;
            && (followUp.status != FollowUpReady <==>
                  && (exists i :: 0 <= i < |health| && health[i] != Healthy)
                  && ownership.status == Owned && ownership.updatedAt.Some?
                  && threshold < AgeMinutes(now, ownership.updatedAt.value))
            && (followUp.status == FollowUpCritical <==>
                  followUp.status != FollowUpReady && 2 * threshold < AgeMinutes(now, ownership.updatedAt.value))
  {
  }

  // ---------------------------------------------------------------------------------------------
  // Owner follow-through and accountability
  // ---------------------------------------------------------------------------------------------

  /** The owner's events after `assignedAt` and no later than `until`, actions before runs. */
  function ActionEvents(owner: string, listing: seq<Report>, assignedAt: int, until: Option<int>): seq<OwnerEvent> {
    if listing == [] then []
    else
      var first := listing[0];
      var rest := ActionEvents(owner, listing[1..], assignedAt, until);
      if IsOwnerAction(owner, first, assignedAt, until) then [OwnerEvent(first.at, OperatorAction(first.kind))] + rest
      else rest
  }

  predicate IsOwnerAction(owner: string, report: Report, assignedAt: int, until: Option<int>) {
    && assignedAt < report.at
    && (until.Some? ==> report.at <= until.value)
    && report.kind != Escalated
    && CurrentOwner(report) == owner
  }

  predicate IsOwnerRun(owner: string, run: Run, assignedAt: int, until: Option<int>) {
    && assignedAt < run.at
    && (until.Some? ==> run.at <= until.value)
    && run.actor == Some(owner)
  }

  function RunEvents(owner: string, runs: seq<Run>, assignedAt: int, until: Option<int>): seq<OwnerEvent> {
    if runs == [] then []
    else
      var rest := RunEvents(owner, runs[1..], assignedAt, until);
      if IsOwnerRun(owner, runs[0], assignedAt, until) then [OwnerEvent(runs[0].at, AutomationRun)] + rest
      else rest
  }

  /** Head of the stable newest-first sort: the first event of maximal time. */
  function LatestEvent(events: seq<OwnerEvent>): (latest: Option<OwnerEvent>)
    ensures latest.None? <==> events == []
    ensures latest.Some? ==>
              exists i :: 0 <= i < |events| && latest.value == events[i]
                          && (forall k :: 0 <= k < i ==> events[k].at < events[i].at)
                          && (forall k :: i <= k < |events| ==> events[k].at <= events[i].at)
  {
    if events == [] then None
    else
      var rest := LatestEvent(events[1..]);
      assert forall k :: 0 <= k < |events| - 1 ==> events[1..][k] == events[k + 1];
      if rest.Some? && events[0].at < rest.value.at then rest else Some(events[0])
  }

  function LastOwnerEvent(owner: string, listing: seq<Report>, runs: seq<Run>, assignedAt: int, until: Option<int>)
    : Option<OwnerEvent>
  {
    LatestEvent(ActionEvents(owner, listing, assignedAt, until) + RunEvents(owner, runs, assignedAt, until))
  }

  function BuildFollowThrough(ownership: Ownership, listing: seq<Report>, runs: seq<Run>, followUp: FollowUp): FollowThrough {
    if !ownership.status.Owned? || ownership.actor.GetOr("") == "" || ownership.updatedAt.None? then
      FollowThrough(NotOwned, None, None, None)
    else
      var owner := ownership.actor.value;
      var last := LastOwnerEvent(owner, listing, runs, ownership.updatedAt.value, None);
      if last.Some? then FollowThrough(Acted, Some(owner), ownership.updatedAt, last)
      else if ownership.handoff != Some(Assigned) && ownership.handoff != Some(Transferred) then
        FollowThrough(Pending, Some(owner), ownership.updatedAt, None)
      else if followUp.status.FollowUpCritical? then FollowThrough(ThroughCritical, Some(owner), ownership.updatedAt, None)
      else if followUp.status.FollowUpWarning? then FollowThrough(ThroughWarning, Some(owner), ownership.updatedAt, None)
      else FollowThrough(Pending, Some(owner), ownership.updatedAt, None)
  }

  function BuildAccountability(owner: Option<string>, listing: seq<Report>, runs: seq<Run>,
                               trigger: ActionKind, evaluatedAt: int): Option<Accountability>
  {
    if owner.GetOr("") == "" then None
    else
      var assignment := FindLatestAssignment(owner.value, listing);
      if assignment.None? then None
      else
        var last := LastOwnerEvent(owner.value, listing, runs, assignment.value.at, Some(evaluatedAt));
        Some(Accountability(if last.Some? then Met else Unmet, owner.value, evaluatedAt, trigger, last))
  }

  lemma {:induction false} ActionEventsAreExactly(owner: string, listing: seq<Report>, assignedAt: int, until: Option<int>, e: OwnerEvent)
    ensures e in ActionEvents(owner, listing, assignedAt, until) <==>
            exists r :: r in listing && IsOwnerAction(owner, r, assignedAt, until) && e == OwnerEvent(r.at, OperatorAction(r.kind))
  {
    if listing != [] {
      assert forall r :: r in listing <==> r == listing[0] || r in listing[1..];
      ActionEventsAreExactly(owner, listing[1..], assignedAt, until, e);
    }
  }

  lemma {:induction false} RunEventsAreExactly(owner: string, runs: seq<Run>, assignedAt: int, until: Option<int>, e: OwnerEvent)
    ensures e in RunEvents(owner, runs, assignedAt, until) <==>
            exists r :: r in runs && IsOwnerRun(owner, r, assignedAt, until) && e == OwnerEvent(r.at, AutomationRun)
  {
    if runs != [] {
      assert forall r :: r in runs <==> r == runs[0] || r in runs[1..];
      RunEventsAreExactly(owner, runs[1..], assignedAt, until, e);
    }
  }

  /** Some action or run of the owner lies in the half-open interval after `assignedAt`. */
  ghost predicate ActedWithin(owner: string, listing: seq<Report>, runs: seq<Run>, assignedAt: int, until: Option<int>, at: int) {
    && assignedAt < at && (until.None? || at <= until.value)
    && ((exists r :: r in listing && r.at == at && r.kind != Escalated && r.owner.GetOr(r.actor) == owner)
        || (exists r :: r in runs && r.at == at && r.actor == Some(owner)))
  }

  /**
   * The reported owner event exists exactly when the owner acted in the interval, and its time is
   * the latest time at which the owner did.
   */
  lemma LastOwnerEventIsLatest(owner: string, listing: seq<Report>, runs: seq<Run>, assignedAt: int, until: Option<int>)
    ensures var last := LastOwnerEvent(owner, listing, runs, assignedAt, until);
            && (last.Some? <==> exists at :: ActedWithin(owner, listing, runs, assignedAt, until, at))
            && (last.Some? ==> ActedWithin(owner, listing, runs, assignedAt, until, last.value.at))
            && (last.Some? ==> forall at :: ActedWithin(owner, listing, runs, assignedAt, until, at) ==> at <= last.value.at)
  {
    var actions := ActionEvents(owner, listing, assignedAt, until);
    var ran := RunEvents(owner, runs, assignedAt, until);
    var last := LastOwnerEvent(owner, listing, runs, assignedAt, until);
    if last.Some? {
      ActionEventsAreExactly(owner, listing, assignedAt, until, last.value);
      RunEventsAreExactly(owner, runs, assignedAt, until, last.value);
      assert ActedWithin(owner, listing, runs, assignedAt, until, last.value.at);
    }
    forall at | ActedWithin(owner, listing, runs, assignedAt, until, at)
      ensures last.Some? && at <= last.value.at
    {
      var e := ActedWithinEvent(owner, listing, runs, assignedAt, until, at);
      assert e in actions + ran;
    }
  }

  lemma ActedWithinEvent(owner: string, listing: seq<Report>, runs: seq<Run>, assignedAt: int, until: Option<int>, at: int)
    returns (e: OwnerEvent)
    requires ActedWithin(owner, listing, runs, assignedAt, until, at)
    ensures e.at == at
    ensures e in ActionEvents(owner, listing, assignedAt, until) || e in RunEvents(owner, runs, assignedAt, until)
  {
    if r :| r in listing && r.at == at && r.kind != Escalated && r.owner.GetOr(r.actor) == owner {
      e := OwnerEvent(r.at, OperatorAction(r.kind));
      ActionEventsAreExactly(owner, listing, assignedAt, until, e);
    } else {
      var r :| r in runs && r.at == at && r.actor == Some(owner);
      e := OwnerEvent(r.at, AutomationRun);
      RunEventsAreExactly(owner, runs, assignedAt, until, e);
    }
  }

  /**
   * Accountability says "met" exactly when the owner, other than through an escalation, acted or
   * ran automation after the latest assignment and no later than the evaluation.
   */
  lemma AccountabilityIsMetExactlyWhenActed(owner: string, listing: seq<Report>, runs: seq<Run>, trigger: ActionKind, evaluatedAt: int)
    requires owner != ""
    ensures var assignment := FindLatestAssignment(owner, listing);
            var verdict := BuildAccountability(Some(owner), listing, runs, trigger, evaluatedAt);
            && (verdict.Some? <==> assignment.Some?)
            && (verdict.Some? ==>
                  && (verdict.value.outcome == Met <==>
                      exists at :: ActedWithin(owner, listing, runs, assignment.value.at, Some(evaluatedAt), at))
                  && (verdict.value.outcome == Met ==>
                        && verdict.value.lastOwnerEvent.Some?
                        && ActedWithin(owner, listing, runs, assignment.value.at, Some(evaluatedAt), verdict.value.lastOwnerEvent.value.at)
                        && forall at :: ActedWithin(owner, listing, runs, assignment.value.at, Some(evaluatedAt), at)
                             ==> at <= verdict.value.lastOwnerEvent.value.at))
  {
    var assignment := FindLatestAssignment(owner, listing);
    if assignment.Some? {
      LastOwnerEventIsLatest(owner, listing, runs, assignment.value.at, Some(evaluatedAt));
    }
  }

  ghost predicate NewestFirst(listing: seq<Report>) {
    forall i, j :: 0 <= i < j < |listing| ==> listing[j].at <= listing[i].at
  }

  /**
   * The two verdicts agree: when follow-through says the current owner has acted and that owner
   * was assigned inside the listing, accountability evaluated now says "met".
   */
  lemma ActedOwnersAreAccountable(ready: bool, listing: seq<Report>, runs: seq<Run>, followUp: FollowUp, trigger: ActionKind, now: int)
    requires NewestFirst(listing)
    requires forall r :: r in listing ==> r.at <= now
    requires forall r :: r in runs ==> r.at <= now
    requires var ownership := BuildOwnership(ready, listing);
             && BuildFollowThrough(ownership, listing, runs, followUp).status == Acted
             && FindLatestAssignment(ownership.actor.value, listing).Some?
    ensures var ownership := BuildOwnership(ready, listing);
            var through := BuildFollowThrough(ownership, listing, runs, followUp);
            var verdict := BuildAccountability(ownership.actor, listing, runs, trigger, now);
            && verdict.Some? && verdict.value.outcome == Met
            && verdict.value.lastOwnerEvent.Some?
            && verdict.value.lastOwnerEvent.value.at == through.lastOwnerEvent.value.at
  {
    var ownership := BuildOwnership(ready, listing);
    var owner := ownership.actor.value;
    FindLatestIsFirst(listing, OWNERSHIP);
    LongerIntervalsAgree(owner, listing, runs, FindLatestAssignment(owner, listing).value.at, ownership.updatedAt.value, now);
  }

  /**
   * For an owner whose ownership began with the assignment itself the two verdicts coincide:
   * accountability says "met" if and only if follow-through says "acted".
   */
  lemma AssignedOwnersAreJudgedAlike(ready: bool, listing: seq<Report>, runs: seq<Run>, followUp: FollowUp, trigger: ActionKind, now: int)
    requires forall r :: r in listing ==> r.at <= now
    requires forall r :: r in runs ==> r.at <= now
    requires BuildOwnership(ready, listing).status.Owned?
    requires BuildOwnership(ready, listing).handoff in {Some(Assigned), Some(Transferred)}
    requires var latest := FindLatest(listing, OWNERSHIP).value; latest.owner.GetOr("") != ""
    ensures var ownership := BuildOwnership(ready, listing);
            var verdict := BuildAccountability(ownership.actor, listing, runs, trigger, now);
            && verdict.Some?
            && (verdict.value.outcome == Met <==> BuildFollowThrough(ownership, listing, runs, followUp).status == Acted)
  {
    var latest := FindLatest(listing, OWNERSHIP).value;
    var owner := latest.owner.value;
    AssignmentIsLatest(listing, owner);
    LastOwnerEventIsLatest(owner, listing, runs, latest.at, None);
    LastOwnerEventIsLatest(owner, listing, runs, latest.at, Some(now));
    forall at ensures ActedWithin(owner, listing, runs, latest.at, None, at) <==> ActedWithin(owner, listing, runs, latest.at, Some(now), at) {}
  }

  lemma {:induction false} AssignmentIsLatest(listing: seq<Report>, owner: string)
    requires FindLatest(listing, OWNERSHIP).Some?
    requires var latest := FindLatest(listing, OWNERSHIP).value; latest.kind in ASSIGNMENT && latest.owner == Some(owner)
    ensures FindLatestAssignment(owner, listing) == FindLatest(listing, OWNERSHIP)
  {
    if listing[0].kind !in OWNERSHIP {
      AssignmentIsLatest(listing[1..], owner);
    }
  }

  /**
   * What follow-through says, exactly: whether there is an owner to follow, whether that owner
   * acted since, and otherwise, for owners who were handed the remediation, how overdue they are.
   */
  lemma FollowThroughIsExactly(ownership: Ownership, listing: seq<Report>, runs: seq<Run>, followUp: FollowUp)
    ensures var through := BuildFollowThrough(ownership, listing, runs, followUp);
            var owned := ownership.status == Owned && ownership.actor.Some? && ownership.actor.value != "" && ownership.updatedAt.Some?;
            var acted := owned && exists at :: ActedWithin(ownership.actor.value, listing, runs, ownership.updatedAt.value, None, at);
            var handed := owned && !acted && ownership.handoff in {Some(Assigned), Some(Transferred)};
            && (through.status == NotOwned <==> !owned)
            && (through.status == Acted <==> acted)
            && (through.status == ThroughCritical <==> handed && followUp.status == FollowUpCritical)
            && (through.status == ThroughWarning <==> handed && followUp.status == FollowUpWarning)
            && (owned ==> through.owner == ownership.actor && through.assignedAt == ownership.updatedAt)
            && (!owned ==> through.owner == None && through.assignedAt == None && through.lastOwnerEvent == None)
            && (owned ==> through.lastOwnerEvent == LastOwnerEvent(ownership.actor.value, listing, runs, ownership.updatedAt.value, None))
  {
    if ownership.actor.Some? && ownership.updatedAt.Some? {
      LastOwnerEventIsLatest(ownership.actor.value, listing, runs, ownership.updatedAt.value, None);
    }
  }

  /** Who owns the remediation, exactly, read through the newest `limit` reports of a log. */
  lemma OwnershipIsExactly(ready: bool, log: seq<Report>, limit: nat)
    ensures var ownership := BuildOwnership(ready, Newest(log, limit));
            var owned, closed := NewestIndex(log, OWNERSHIP), NewestIndex(log, {Resolved});
            if ready && 0 <= closed && |log| - limit <= closed then
              && ownership.status == Closed && ownership.actor == Some(log[closed].actor) && ownership.assignedBy == None
              && ownership.handoff == Some(Resolved) && ownership.updatedAt == Some(log[closed].at)
            else if 0 <= owned && |log| - limit <= owned then
              && ownership.status == Owned && ownership.actor == Some(log[owned].owner.GetOr(log[owned].actor))
              && (ownership.assignedBy == Some(log[owned].actor) <==> log[owned].kind in {Assigned, Transferred})
              && (ownership.assignedBy.None? <==> log[owned].kind in {Acknowledged, Reacknowledged})
              && ownership.handoff == Some(log[owned].kind) && ownership.updatedAt == Some(log[owned].at)
            else
              && ownership.status == Unassigned
              && ownership.actor == ownership.assignedBy == None && ownership.handoff == None && ownership.updatedAt == None
  {
    FindLatestInWindow(log, OWNERSHIP, limit);
    FindLatestInWindow(log, {Resolved}, limit);
  }

  /** Looking back further, and only up to now, still finds the same latest owner event. */
  lemma LongerIntervalsAgree(owner: string, listing: seq<Report>, runs: seq<Run>, earlier: int, since: int, now: int)
    requires earlier <= since && LastOwnerEvent(owner, listing, runs, since, None).Some?
    requires forall r :: r in listing ==> r.at <= now
    requires forall r :: r in runs ==> r.at <= now
    ensures var last := LastOwnerEvent(owner, listing, runs, earlier, Some(now));
            last.Some? && last.value.at == LastOwnerEvent(owner, listing, runs, since, None).value.at
  {
    LastOwnerEventIsLatest(owner, listing, runs, since, None);
    LastOwnerEventIsLatest(owner, listing, runs, earlier, Some(now));
    var through := LastOwnerEvent(owner, listing, runs, since, None).value.at;
    assert ActedWithin(owner, listing, runs, earlier, Some(now), through);
    var verdict := LastOwnerEvent(owner, listing, runs, earlier, Some(now)).value.at;
    assert ActedWithin(owner, listing, runs, since, None, verdict);
  }

  /** The report found in a newest-first listing is at least as new as any other matching one. */
  lemma {:induction false} FindLatestIsFirst(listing: seq<Report>, kinds: set<ActionKind>)
    requires NewestFirst(listing)
    ensures var found := FindLatest(listing, kinds);
            && (found.None? <==> forall r :: r in listing ==> r.kind !in kinds)
            && (found.Some? ==> found.value in listing && found.value.kind in kinds)
            && (found.Some? ==> forall r :: r in listing && r.kind in kinds ==> r.at <= found.value.at)
  {
    if listing != [] {
      assert forall r :: r in listing <==> r == listing[0] || r in listing[1..];
      FindLatestIsFirst(listing[1..], kinds);
    }
  }
}
