/**
 * The telemetry-remediation protocol over whole runs.
 *
 * Every step reads the truncated listing, decides, and appends.  The theorems relate what those
 * truncated readings decide to the complete log.
 */
module RemediationJournal {
  import opened Basics
  import opened TelemetryRemediation

  datatype Refusal =
    | NothingToAcknowledge | AlreadyAcknowledged | NothingToAssign | UnknownOwner | AlreadyOwned | NotYetOwned
    | SelfAssignment | SameOwner | OwnedByAnother | NothingToReacknowledge | NotAcknowledged | FollowUpNotDue
    | StillDegraded | AlreadyResolved | NoRuntimeSnapshot

  /**
   * All reports ever written, oldest first; the retention sweep has deleted the first `dropped`
   * files, so the directory holds the rest.
   */
  datatype Journal = Journal(history: seq<Report>, dropped: nat, clock: int) {
    ghost predicate Valid() {
      dropped <= |history|
    }

    function Log(): seq<Report>
      requires dropped <= |history|
    {
      history[dropped..]
    }
  }

  // ---------------------------------------------------------------------------------------------
  // Steps
  // ---------------------------------------------------------------------------------------------

  predicate OwnerActionAllowed(actor: string, ownership: Ownership) {
    !(ownership.status.Owned? && ownership.actor.GetOr("") != "" && ownership.actor != Some(actor))
  }

  /**
   * The guards of recording an operator action, in the order the source checks them.  Closing comes
   * with an incident sync, which needs an API runtime snapshot to be `published`.
   */
  function Guard(status: Status, actor: string, kind: ActionKind, chosen: Option<string>, published: bool): Option<Refusal> {
    var healthy := status.remediation.recommendation.NoAction?;
    var owned := status.ownership.status.Owned?;
    match kind
    case Acknowledged =>
      if healthy then Some(NothingToAcknowledge)
      else if owned then Some(AlreadyAcknowledged)
      else None
    case Assigned | Transferred =>
      if healthy then Some(NothingToAssign)
      else if chosen.None? then Some(UnknownOwner)
      else if kind == Assigned && owned then Some(AlreadyOwned)
      else if kind == Transferred && !owned then Some(NotYetOwned)
      else if kind == Assigned && chosen == Some(actor) then Some(SelfAssignment)
      else if status.ownership.actor.GetOr("") != "" && chosen == status.ownership.actor then Some(SameOwner)
      else None
    case Reacknowledged =>
      if !OwnerActionAllowed(actor, status.ownership) then Some(OwnedByAnother)
      else if healthy then Some(NothingToReacknowledge)
      else if !owned then Some(NotAcknowledged)
      else if status.followUp.status.FollowUpReady? then Some(FollowUpNotDue)
      else None
    case Resolved =>
      if !OwnerActionAllowed(actor, status.ownership) then Some(OwnedByAnother)
      else if !healthy then Some(StillDegraded)
      else if status.ownership.status.Closed? then Some(AlreadyResolved)
      else if !published then Some(NoRuntimeSnapshot)
      else None
    case Escalated => None
  }

  /** The report an accepted operator action writes; without a chosen owner the actor owns it. */
  function OperatorReport(status: Status, actor: string, kind: ActionKind, chosen: Option<string>, now: int): Report {
    var accountability :=
      if kind == Transferred && FindLatestAssignment(status.ownership.actor.GetOr(""), status.recent).Some?
      then BuildAccountability(status.ownership.actor, status.recent, status.runs, Transferred, now)
      else None;
    Report(kind, now, actor, Some(if kind in ASSIGNMENT then chosen.GetOr(actor) else actor), accountability)
  }

  /** Whether a status refresh must append an automatic escalation. */
  predicate EscalationDue(status: Status) {
    && status.followUp.status.FollowUpCritical?
    && var latestEscalation := FindLatest(status.recent, {Escalated});
       var latestOwnership := FindLatest(status.recent, OWNERSHIP);
       !(latestEscalation.Some? && latestOwnership.Some? && latestOwnership.value.at <= latestEscalation.value.at)
  }

  function EscalationReport(status: Status, actor: string, now: int): Report {
    var assignment := FindLatest(status.recent, ASSIGNMENT);
    var accountability :=
      if assignment.None? then None
      else
        var owner := if status.ownership.actor.Some? then status.ownership.actor else assignment.value.owner;
        BuildAccountability(owner, status.recent, status.runs, Escalated, now);
    Report(Escalated, now, actor, Some(status.ownership.actor.GetOr(actor)), accountability)
  }

  function Append(j: Journal, report: Report): Journal {
    j.(history := j.history + [report])
  }

  /** Retention deletes the oldest files. */
  function Drop(j: Journal, count: nat): Journal {
    j.(dropped := Min(|j.history|, j.dropped + count))
  }

  function Tock(j: Journal, after: Tick): Journal {
    j.(clock := j.clock + after)
  }

  function EscalateIfNeeded(config: Config, j: Journal, actor: string, signals: Signals): (after: Journal)
    requires j.Valid()
    ensures after.Valid()
  {
    var status := Evaluate(config, signals, j.Log(), WINDOW, j.clock);
    if EscalationDue(status) then Append(j, EscalationReport(status, actor, j.clock)) else j
  }

  datatype Event =
    | RecordAction(after: Tick, actor: string, kind: ActionKind, chosen: Option<string>, published: bool,
                   before: Signals, swept: nat, refreshed: Signals)
    | RefreshStatus(after: Tick, actor: string, signals: Signals)
    | RecordFailure(after: Tick, actor: string, signals: Signals, refreshed: Signals)
    | Sweep(count: nat)

  /** An operator can submit any kind of action, but only the automation should escalate. */
  predicate Automatic(e: Event) {
    e.RecordAction? ==> e.kind != Escalated
  }

  /** Whether the step records the action it submits. */
  predicate Accepts(config: Config, j: Journal, e: Event)
    requires j.Valid()
  {
    && e.RecordAction?
    && var start := Tock(j, e.after);
       Guard(Evaluate(config, e.before, start.Log(), WINDOW, start.clock), e.actor, e.kind, e.chosen, e.published).None?
  }

  /** One exported operation as an atomic step; a refused action leaves the log alone. */
  function Exec(config: Config, j: Journal, e: Event): (after: Journal)
    requires j.Valid()
    ensures after.Valid()
  {
    match e
    case RecordAction(after, actor, kind, chosen, published, before, swept, refreshed) =>
      var start := Tock(j, after);
      var status := Evaluate(config, before, start.Log(), WINDOW, start.clock);
      if !Accepts(config, j, e) then start
      else
        var recorded := Append(start, OperatorReport(status, actor, kind, chosen, start.clock));
        EscalateIfNeeded(config, Drop(recorded, swept), actor, refreshed)
    case RefreshStatus(after, actor, signals) =>
      EscalateIfNeeded(config, Tock(j, after), actor, signals)
    case RecordFailure(after, actor, signals, refreshed) =>
      var once := EscalateIfNeeded(config, Tock(j, after), actor, signals);
      EscalateIfNeeded(config, once, actor, refreshed)
    case Sweep(count) => Drop(j, count)
  }

  const EMPTY := Journal([], 0, 0)

  ghost function RunEvents(config: Config, events: seq<Event>): (j: Journal)
    ensures j.Valid()
  {
    if events == [] then EMPTY
    else
      var j := RunEvents(config, events[..|events| - 1]);
      Exec(config, j, events[|events| - 1])
  }

  ghost predicate AllAutomatic(events: seq<Event>) {
    forall i :: 0 <= i < |events| ==> Automatic(events[i])
  }

  /** How many escalations operators have submitted since the newest surviving ownership action was taken. */
  ghost function Submitted(config: Config, events: seq<Event>): nat {
    if events == [] then 0
    else
      var front, e := events[..|events| - 1], events[|events| - 1];
      NextSubmitted(config, RunEvents(config, front), e, Submitted(config, front))
  }

  function NextSubmitted(config: Config, j: Journal, e: Event, submitted: nat): (next: nat)
    requires j.Valid()
    ensures next <= submitted + 1
    ensures Automatic(e) ==> next <= submitted
  {
    if NewestIndex(j.Log(), OWNERSHIP) == -1 || (Accepts(config, j, e) && e.kind in OWNERSHIP) then 0
    else if Automatic(e) then submitted
    else submitted + 1
  }

  /** Operators submit at most `bound` escalations under one ownership action. */
  ghost predicate SubmitAtMost(config: Config, events: seq<Event>, bound: nat) {
    events != [] ==> SubmitAtMost(config, events[..|events| - 1], bound) && Submitted(config, events) <= bound
  }

  /** So many submitted escalations leave room for the owner, one automatic escalation and one resolution. */
  const SUBMITTABLE: nat := WINDOW - 3

  // ---------------------------------------------------------------------------------------------
  // The invariant
  // ---------------------------------------------------------------------------------------------

  /** Reports are in time order, and an ownership action is strictly newer than all before it. */
  ghost predicate Chronological(history: seq<Report>) {
    && (forall i, j :: 0 <= i < j < |history| ==> history[i].at <= history[j].at)
    && (forall i, j :: 0 <= i < j < |history| && history[j].kind in OWNERSHIP ==> history[i].at < history[j].at)
  }

  /**
   * The escalation at `index` answers the newest ownership action before it: none came in between,
   * the follow-up window had been breached twice over, and it names the owner of that action.
   */
  ghost predicate Justified(config: Config, history: seq<Report>, index: nat)
    requires index < |history|
  {
    var answered := NewestIndex(history[..index], OWNERSHIP);
    && 0 <= answered
    && NewestIndex(history[..index], {Escalated}) < answered
    && AgeMinutes(history[index].at, history[answered].at) > 2 * FollowUpThreshold(config)
    && history[index].owner == Some(CurrentOwner(history[answered]))
  }

  /** The report at `index`, if a resolution, has an ownership action between it and the previous resolution. */
  ghost predicate FirstClosure(log: seq<Report>, index: nat)
    requires index < |log|
  {
    log[index].kind == Resolved ==> NewestIndex(log[..index], {Resolved}) <= NewestIndex(log[..index], OWNERSHIP)
  }

  ghost predicate ClosuresSeparated(log: seq<Report>) {
    forall i :: 0 <= i < |log| ==> FirstClosure(log, i)
  }

  ghost predicate Timely(j: Journal) {
    && j.Valid()
    && Chronological(j.history)
    && forall i :: 0 <= i < |j.history| ==> j.history[i].at <= j.clock
  }

  /**
   * After the newest ownership action come, besides submitted escalations, at most one escalation
   * and one resolution; so many reports at most come after it.
   */
  ghost predicate ShortTail(log: seq<Report>, submitted: nat) {
    var newest := NewestIndex(log, OWNERSHIP);
    |log| - 1 - newest <= submitted
                          + (if newest < NewestIndex(log, {Escalated}) then 1 else 0)
                          + (if newest < NewestIndex(log, {Resolved}) then 1 else 0)
  }

  /** The invariant of runs in which operators may submit escalations. */
  ghost predicate Bounded(j: Journal, submitted: nat) {
    Timely(j) && (NewestIndex(j.Log(), OWNERSHIP) == -1 || ShortTail(j.Log(), submitted))
  }

  ghost predicate AllJustified(config: Config, history: seq<Report>) {
    forall i :: 0 <= i < |history| && history[i].kind == Escalated ==> Justified(config, history, i)
  }

  ghost predicate Settled(log: seq<Report>) {
    ShortTail(log, 0) && ClosuresSeparated(log)
  }

  /** The invariant of runs in which only the automation escalates. */
  ghost predicate Inv(config: Config, j: Journal) {
    && Timely(j)
    && AllJustified(config, j.history)
    && Settled(j.Log())
  }

  /** Searching the surviving suffix finds the same report as searching the whole history. */
  lemma NewestIndexOfSuffix(history: seq<Report>, dropped: nat, kinds: set<ActionKind>)
    requires dropped <= |history|
    ensures var inLog := NewestIndex(history[dropped..], kinds);
            0 <= inLog ==> NewestIndex(history, kinds) == dropped + inLog
    ensures NewestIndex(history[dropped..], kinds) == -1 ==> NewestIndex(history, kinds) < dropped
  {
    var log := history[dropped..];
    var inLog := NewestIndex(log, kinds);
    assert forall i :: dropped <= i < |history| ==> history[i] == log[i - dropped];
    if 0 <= inLog {
      assert history[dropped + inLog] == log[inLog];
      NewestIndexIsUnique(history, kinds, dropped + inLog);
    }
  }

  // ---------------------------------------------------------------------------------------------
  // Truncated readings against the complete log
  // ---------------------------------------------------------------------------------------------

  /**
   * The newest ownership action is among the newest `reach` reports, and the newest escalation lies
   * to it as their times do.
   */
  ghost predicate WellPlaced(log: seq<Report>, reach: nat) {
    var newest := NewestIndex(log, OWNERSHIP);
    var escalated := NewestIndex(log, {Escalated});
    && (newest == -1 || |log| - newest <= reach)
    && (0 <= escalated < newest ==> log[escalated].at < log[newest].at)
    && (0 <= newest < escalated ==> log[newest].at <= log[escalated].at)
  }

  lemma BoundedIsWellPlaced(j: Journal, submitted: nat)
    requires Bounded(j, submitted)
    ensures WellPlaced(j.Log(), submitted + 3)
  {
    var log := j.Log();
    assert forall i :: 0 <= i < |log| ==> log[i] == j.history[j.dropped + i];
  }

  /** In a well-placed log, looking at the newest reports within reach already decides as the whole log. */
  lemma WindowDecides(config: Config, log: seq<Report>, signals: Signals, limit: nat, now: int)
    requires WellPlaced(log, limit)
    ensures var window := Evaluate(config, signals, log, limit, now);
            var full := Evaluate(config, signals, log, |log|, now);
            && FindLatest(window.recent, OWNERSHIP) == FindLatest(full.recent, OWNERSHIP)
            && (!BuildRemediation(config, signals, None).posture.Ready? ==> window.ownership == full.ownership)
            && window.followUp.status == full.followUp.status
            && window.remediation == full.remediation
            && (EscalationDue(window) <==> EscalationDue(full))
  {
    FindLatestInWindow(log, OWNERSHIP, limit);
    FindLatestInWindow(log, OWNERSHIP, |log|);
    FindLatestInWindow(log, {Escalated}, limit);
    FindLatestInWindow(log, {Escalated}, |log|);
  }

  /** Whether an escalation is due, said of the complete log. */
  lemma DueMeansUnanswered(config: Config, log: seq<Report>, signals: Signals, now: int)
    requires WellPlaced(log, WINDOW)
    ensures var newest := NewestIndex(log, OWNERSHIP);
            EscalationDue(Evaluate(config, signals, log, WINDOW, now)) <==>
            && !AllHealthy(signals.ownership)
            && 0 <= newest
            && AgeMinutes(now, log[newest].at) > 2 * FollowUpThreshold(config)
            && NewestIndex(log, {Escalated}) < newest
    ensures EscalationDue(Evaluate(config, signals, log, WINDOW, now)) ==>
            Evaluate(config, signals, log, WINDOW, now).ownership == OwnedBy(log[NewestIndex(log, OWNERSHIP)])
  {
    FindLatestInWindow(log, OWNERSHIP, WINDOW);
    FindLatestInWindow(log, {Escalated}, WINDOW);
    var newest := NewestIndex(log, OWNERSHIP);
    var escalated := NewestIndex(log, {Escalated});
    assert newest == escalated ==> newest == -1;
  }

  // ---------------------------------------------------------------------------------------------
  // Preservation
  // ---------------------------------------------------------------------------------------------

  lemma AppendKeepsJustified(config: Config, history: seq<Report>, report: Report, index: nat)
    requires index < |history| && Justified(config, history, index)
    ensures Justified(config, history + [report], index)
  {
    assert (history + [report])[..index] == history[..index];
  }

  lemma AppendKeepsClosuresSeparated(log: seq<Report>, report: Report)
    requires ClosuresSeparated(log)
    requires report.kind == Resolved ==> NewestIndex(log, {Resolved}) <= NewestIndex(log, OWNERSHIP)
    ensures ClosuresSeparated(log + [report])
  {
    var longer := log + [report];
    assert longer[..|log|] == log;
    forall i | 0 <= i < |longer| ensures FirstClosure(longer, i) {
      if i < |log| {
        assert FirstClosure(log, i) && longer[..i] == log[..i];
      }
    }
  }

  lemma SuffixKeepsClosuresSeparated(log: seq<Report>, count: nat)
    requires ClosuresSeparated(log) && count <= |log|
    ensures ClosuresSeparated(log[count..])
  {
    var suffix := log[count..];
    forall i | 0 <= i < |suffix| ensures FirstClosure(suffix, i) {
      assert FirstClosure(log, count + i) && log[..count + i][count..] == suffix[..i];
      NewestIndexOfSuffix(log[..count + i], count, {Resolved});
      NewestIndexOfSuffix(log[..count + i], count, OWNERSHIP);
    }
  }

  lemma AppendKeepsChronological(history: seq<Report>, report: Report)
    requires Chronological(history)
    requires forall i :: 0 <= i < |history| ==> history[i].at <= report.at
    requires report.kind in OWNERSHIP ==> forall i :: 0 <= i < |history| ==> history[i].at < report.at
    ensures Chronological(history + [report])
  {
  }

  lemma AppendKeepsAllJustified(config: Config, history: seq<Report>, report: Report)
    requires AllJustified(config, history)
    requires report.kind == Escalated ==> Justified(config, history + [report], |history|)
    ensures AllJustified(config, history + [report])
  {
    var longer := history + [report];
    forall i | 0 <= i < |longer| && longer[i].kind == Escalated ensures Justified(config, longer, i) {
      if i < |history| {
        AppendKeepsJustified(config, history, report, i);
      }
    }
  }

  lemma NewestIndexOfAppend(log: seq<Report>, report: Report, kinds: set<ActionKind>)
    ensures NewestIndex(log + [report], kinds) == if report.kind in kinds then |log| else NewestIndex(log, kinds)
  {
    assert (log + [report])[..|log|] == log;
  }

  /**
   * What an appended report does to the tail: an ownership action ends it, a first escalation or
   * resolution is accounted for, and any further escalation counts as submitted.
   */
  lemma AppendKeepsShortTail(log: seq<Report>, report: Report, submitted: nat)
    requires ShortTail(log, submitted)
    requires report.kind == Resolved ==> NewestIndex(log, {Resolved}) <= NewestIndex(log, OWNERSHIP)
    ensures ShortTail(log + [report], submitted + 1)
    ensures (report.kind == Escalated ==> NewestIndex(log, {Escalated}) <= NewestIndex(log, OWNERSHIP)) ==>
              ShortTail(log + [report], submitted)
  {
    NewestIndexOfAppend(log, report, OWNERSHIP);
    NewestIndexOfAppend(log, report, {Escalated});
    NewestIndexOfAppend(log, report, {Resolved});
  }

  lemma OwnershipEndsTail(log: seq<Report>, report: Report)
    requires report.kind in OWNERSHIP
    ensures ShortTail(log + [report], 0)
  {
    NewestIndexOfAppend(log, report, OWNERSHIP);
  }

  /** Deleting the oldest reports shortens the tail by at least as much as it hides of it. */
  lemma SuffixKeepsShortTail(log: seq<Report>, count: nat, submitted: nat)
    requires count <= |log| && ShortTail(log, submitted)
    ensures ShortTail(log[count..], submitted)
  {
    NewestIndexOfSuffix(log, count, OWNERSHIP);
    NewestIndexOfSuffix(log, count, {Escalated});
    NewestIndexOfSuffix(log, count, {Resolved});
    assert NewestIndex(log, {Escalated}) == NewestIndex(log, {Resolved}) ==> NewestIndex(log, {Resolved}) == -1;
  }

  lemma AppendKeepsTimely(j: Journal, report: Report)
    requires Timely(j) && report.at == j.clock
    requires report.kind in OWNERSHIP ==> forall i :: 0 <= i < |j.history| ==> j.history[i].at < j.clock
    ensures Timely(Append(j, report))
    ensures Append(j, report).Log() == j.Log() + [report]
  {
    AppendKeepsChronological(j.history, report);
  }

  /** Appending keeps the invariant when the appended report is itself well placed. */
  lemma AppendKeepsInv(config: Config, j: Journal, report: Report)
    requires Inv(config, j)
    requires report.at == j.clock
    requires report.kind in OWNERSHIP ==> forall i :: 0 <= i < |j.history| ==> j.history[i].at < j.clock
    requires report.kind == Escalated ==> Justified(config, j.history + [report], |j.history|)
    requires report.kind == Escalated ==> NewestIndex(j.Log(), {Escalated}) <= NewestIndex(j.Log(), OWNERSHIP)
    requires report.kind == Resolved ==> NewestIndex(j.Log(), {Resolved}) <= NewestIndex(j.Log(), OWNERSHIP)
    ensures Inv(config, Append(j, report))
  {
    AppendKeepsTimely(j, report);
    AppendKeepsSettled(j.Log(), report);
    AppendKeepsAllJustified(config, j.history, report);
  }

  lemma AppendKeepsSettled(log: seq<Report>, report: Report)
    requires Settled(log)
    requires report.kind == Escalated ==> NewestIndex(log, {Escalated}) <= NewestIndex(log, OWNERSHIP)
    requires report.kind == Resolved ==> NewestIndex(log, {Resolved}) <= NewestIndex(log, OWNERSHIP)
    ensures Settled(log + [report])
  {
    AppendKeepsShortTail(log, report, 0);
    AppendKeepsClosuresSeparated(log, report);
  }

  lemma SuffixKeepsSettled(log: seq<Report>, count: nat)
    requires count <= |log| && Settled(log)
    ensures Settled(log[count..])
  {
    SuffixKeepsShortTail(log, count, 0);
    SuffixKeepsClosuresSeparated(log, count);
  }

  lemma TockKeepsInv(config: Config, j: Journal, after: Tick)
    requires Inv(config, j)
    ensures Inv(config, Tock(j, after))
    ensures forall i :: 0 <= i < |j.history| ==> j.history[i].at < Tock(j, after).clock
  {
  }

  lemma DropKeepsInv(config: Config, j: Journal, count: nat)
    requires Inv(config, j)
    ensures Inv(config, Drop(j, count))
  {
    hide Settled, AllJustified, Chronological;
    var after := Drop(j, count);
    SuffixKeepsSettled(j.Log(), after.dropped - j.dropped);
    assert after.Log() == j.Log()[after.dropped - j.dropped..];
  }

  /** An escalation that is due answers the newest ownership action, and is its first. */
  lemma DueEscalationIsJustified(config: Config, j: Journal, actor: string, signals: Signals)
    requires j.Valid() && WellPlaced(j.Log(), WINDOW)
    requires EscalationDue(Evaluate(config, signals, j.Log(), WINDOW, j.clock))
    ensures var report := EscalationReport(Evaluate(config, signals, j.Log(), WINDOW, j.clock), actor, j.clock);
            Justified(config, j.history + [report], |j.history|)
  {
    var status := Evaluate(config, signals, j.Log(), WINDOW, j.clock);
    var h := j.history;
    assert (h + [EscalationReport(status, actor, j.clock)])[..|h|] == h;
    DueMeansUnanswered(config, j.Log(), signals, j.clock);
    NewestIndexOfSuffix(h, j.dropped, OWNERSHIP);
    NewestIndexOfSuffix(h, j.dropped, {Escalated});
  }

  lemma EscalateKeepsInv(config: Config, j: Journal, actor: string, signals: Signals)
    requires Inv(config, j)
    ensures Inv(config, EscalateIfNeeded(config, j, actor, signals))
  {
    var status := Evaluate(config, signals, j.Log(), WINDOW, j.clock);
    if EscalationDue(status) {
      BoundedIsWellPlaced(j, 0);
      DueEscalationIsJustified(config, j, actor, signals);
      DueMeansUnanswered(config, j.Log(), signals, j.clock);
      AppendKeepsInv(config, j, EscalationReport(status, actor, j.clock));
    }
  }

  /**
   * An operator can close the posture exactly when it is healthy, nobody else owns it, and the
   * window shows no earlier resolution, whatever ownership actions came after that one.
   */
  lemma ResolutionGuard(config: Config, signals: Signals, log: seq<Report>, now: int, actor: string, chosen: Option<string>, published: bool)
    ensures var status := Evaluate(config, signals, log, WINDOW, now);
            Guard(status, actor, Resolved, chosen, published).None? <==>
            && status.remediation.recommendation.NoAction?
            && OwnerActionAllowed(actor, status.ownership)
            && FindLatest(Newest(log, WINDOW), {Resolved}).None?
            && published
  {
  }

  /** No resolution in the window means none in a short tail. */
  lemma GuardedResolutionIsFirst(log: seq<Report>, submitted: nat)
    requires ShortTail(log, submitted) && submitted <= SUBMITTABLE
    requires FindLatest(Newest(log, WINDOW), {Resolved}).None?
    ensures NewestIndex(log, {Resolved}) <= NewestIndex(log, OWNERSHIP)
  {
    FindLatestInWindow(log, {Resolved}, WINDOW);
  }

  lemma RecordKeepsInv(config: Config, start: Journal, actor: string, kind: ActionKind, chosen: Option<string>, published: bool, signals: Signals)
    requires Inv(config, start) && kind != Escalated
    requires forall i :: 0 <= i < |start.history| ==> start.history[i].at < start.clock
    requires Guard(Evaluate(config, signals, start.Log(), WINDOW, start.clock), actor, kind, chosen, published).None?
    ensures var status := Evaluate(config, signals, start.Log(), WINDOW, start.clock);
            Inv(config, Append(start, OperatorReport(status, actor, kind, chosen, start.clock)))
  {
    if kind == Resolved {
      ResolutionGuard(config, signals, start.Log(), start.clock, actor, chosen, published);
      GuardedResolutionIsFirst(start.Log(), 0);
    }
    var status := Evaluate(config, signals, start.Log(), WINDOW, start.clock);
    AppendKeepsInv(config, start, OperatorReport(status, actor, kind, chosen, start.clock));
  }

  lemma ExecKeepsInv(config: Config, j: Journal, e: Event)
    requires Inv(config, j) && Automatic(e)
    ensures Inv(config, Exec(config, j, e))
  {
    if e.Sweep? {
      DropKeepsInv(config, j, e.count);
    } else {
      TockKeepsInv(config, j, e.after);
      TimedExecKeepsInv(config, Tock(j, e.after), j, e);
    }
  }

  lemma TimedExecKeepsInv(config: Config, start: Journal, j: Journal, e: Event)
    requires j.Valid() && !e.Sweep? && Automatic(e) && start == Tock(j, e.after)
    requires Inv(config, start)
    requires forall i :: 0 <= i < |start.history| ==> start.history[i].at < start.clock
    ensures Inv(config, Exec(config, j, e))
  {
    match e
    case RecordAction(_, actor, kind, chosen, published, before, swept, refreshed) =>
      var status := Evaluate(config, before, start.Log(), WINDOW, start.clock);
      if Guard(status, actor, kind, chosen, published).None? {
        var recorded := Append(start, OperatorReport(status, actor, kind, chosen, start.clock));
        RecordKeepsInv(config, start, actor, kind, chosen, published, before);
        DropKeepsInv(config, recorded, swept);
        EscalateKeepsInv(config, Drop(recorded, swept), actor, refreshed);
      }
    case RefreshStatus(_, actor, signals) =>
      EscalateKeepsInv(config, start, actor, signals);
    case RecordFailure(_, actor, signals, refreshed) =>
      EscalateKeepsInv(config, start, actor, signals);
      EscalateKeepsInv(config, EscalateIfNeeded(config, start, actor, signals), actor, refreshed);
  }

  lemma {:induction false} RunsKeepInv(config: Config, events: seq<Event>)
    requires AllAutomatic(events)
    ensures Inv(config, RunEvents(config, events))
  {
    if events != [] {
      var front := events[..|events| - 1];
      RunsKeepInv(config, front);
      ExecKeepsInv(config, RunEvents(config, front), events[|events| - 1]);
    }
  }

  // ---------------------------------------------------------------------------------------------
  // Preservation under submitted escalations
  // ---------------------------------------------------------------------------------------------

  lemma DropKeepsBounded(j: Journal, count: nat, submitted: nat)
    requires Bounded(j, submitted)
    ensures Bounded(Drop(j, count), submitted)
    ensures NewestIndex(j.Log(), OWNERSHIP) == -1 ==> NewestIndex(Drop(j, count).Log(), OWNERSHIP) == -1
  {
    var after := Drop(j, count);
    var cut := after.dropped - j.dropped;
    assert after.Log() == j.Log()[cut..];
    NewestIndexOfSuffix(j.Log(), cut, OWNERSHIP);
    if NewestIndex(j.Log(), OWNERSHIP) != -1 {
      SuffixKeepsShortTail(j.Log(), cut, submitted);
    }
  }

  lemma EscalateKeepsBounded(config: Config, j: Journal, actor: string, signals: Signals, submitted: nat)
    requires Bounded(j, submitted) && submitted <= SUBMITTABLE
    ensures var after := EscalateIfNeeded(config, j, actor, signals);
            Bounded(after, submitted) && (NewestIndex(j.Log(), OWNERSHIP) == -1 ==> after == j)
  {
    var status := Evaluate(config, signals, j.Log(), WINDOW, j.clock);
    if EscalationDue(status) {
      BoundedIsWellPlaced(j, submitted);
      DueMeansUnanswered(config, j.Log(), signals, j.clock);
      AppendKeepsTimely(j, EscalationReport(status, actor, j.clock));
      AppendKeepsShortTail(j.Log(), EscalationReport(status, actor, j.clock), submitted);
    }
  }

  lemma RecordKeepsBounded(config: Config, start: Journal, e: Event, submitted: nat)
    requires Bounded(start, submitted) && submitted <= SUBMITTABLE && e.RecordAction?
    requires forall i :: 0 <= i < |start.history| ==> start.history[i].at < start.clock
    requires Guard(Evaluate(config, e.before, start.Log(), WINDOW, start.clock), e.actor, e.kind, e.chosen, e.published).None?
    ensures var status := Evaluate(config, e.before, start.Log(), WINDOW, start.clock);
            var after := Append(start, OperatorReport(status, e.actor, e.kind, e.chosen, start.clock));
            && Timely(after)
            && (if e.kind in OWNERSHIP then ShortTail(after.Log(), 0)
                else if NewestIndex(start.Log(), OWNERSHIP) == -1 then NewestIndex(after.Log(), OWNERSHIP) == -1
                else ShortTail(after.Log(), if e.kind == Escalated then submitted + 1 else submitted))
  {
    var log := start.Log();
    var report := OperatorReport(Evaluate(config, e.before, log, WINDOW, start.clock), e.actor, e.kind, e.chosen, start.clock);
    AppendKeepsTimely(start, report);
    if e.kind in OWNERSHIP {
      OwnershipEndsTail(log, report);
    } else if NewestIndex(log, OWNERSHIP) == -1 {
      NewestIndexOfAppend(log, report, OWNERSHIP);
    } else {
      if e.kind == Resolved {
        ResolutionGuard(config, e.before, log, start.clock, e.actor, e.chosen, e.published);
        GuardedResolutionIsFirst(log, submitted);
      }
      AppendKeepsShortTail(log, report, submitted);
    }
  }

  lemma ExecKeepsBounded(config: Config, j: Journal, e: Event, submitted: nat)
    requires Bounded(j, submitted) && submitted <= SUBMITTABLE
    requires NextSubmitted(config, j, e, submitted) <= SUBMITTABLE
    ensures Bounded(Exec(config, j, e), NextSubmitted(config, j, e, submitted))
  {
    var next := NextSubmitted(config, j, e, submitted);
    match e
    case Sweep(count) =>
      DropKeepsBounded(j, count, submitted);
    case RefreshStatus(after, actor, signals) =>
      EscalateKeepsBounded(config, Tock(j, after), actor, signals, submitted);
    case RecordFailure(after, actor, signals, refreshed) =>
      EscalateKeepsBounded(config, Tock(j, after), actor, signals, submitted);
      EscalateKeepsBounded(config, EscalateIfNeeded(config, Tock(j, after), actor, signals), actor, refreshed, submitted);
    case RecordAction(after, actor, kind, chosen, published, before, swept, refreshed) =>
      var start := Tock(j, after);
      if Accepts(config, j, e) {
        var status := Evaluate(config, before, start.Log(), WINDOW, start.clock);
        var recorded := Append(start, OperatorReport(status, actor, kind, chosen, start.clock));
        RecordKeepsBounded(config, start, e, submitted);
        DropKeepsBounded(recorded, swept, next);
        EscalateKeepsBounded(config, Drop(recorded, swept), actor, refreshed, next);
      }
  }

  // ---------------------------------------------------------------------------------------------
  // Theorems over all runs
  // ---------------------------------------------------------------------------------------------

  lemma {:induction false} AutomaticRunsSubmitNothing(config: Config, events: seq<Event>)
    requires AllAutomatic(events)
    ensures SubmitAtMost(config, events, 0) && Submitted(config, events) == 0
  {
    hide RunEvents, NextSubmitted;
    if events != [] {
      AutomaticRunsSubmitNothing(config, events[..|events| - 1]);
    }
  }

  lemma {:induction false} RunsStayBounded(config: Config, events: seq<Event>, bound: nat)
    requires SubmitAtMost(config, events, bound) && bound <= SUBMITTABLE
    ensures Bounded(RunEvents(config, events), Submitted(config, events))
    ensures Submitted(config, events) <= bound
  {
    if events != [] {
      var front := events[..|events| - 1];
      RunsStayBounded(config, front, bound);
      ExecKeepsBounded(config, RunEvents(config, front), events[|events| - 1], Submitted(config, front));
    }
  }

  lemma {:induction false} RunsAreWellPlaced(config: Config, events: seq<Event>, bound: nat)
    requires SubmitAtMost(config, events, bound) && bound <= SUBMITTABLE
    ensures WellPlaced(RunEvents(config, events).Log(), bound + 3)
  {
    RunsStayBounded(config, events, bound);
    BoundedIsWellPlaced(RunEvents(config, events), Submitted(config, events));
  }

  /**
   * On every run in which operators submit at most `bound` escalations under one ownership action,
   * truncating the log to twelve reports, or to any number from `bound + 3`, changes nothing that is
   * decided while signals are degraded: same owner, same follow-up, same remediation, same verdict
   * on whether to escalate.  Without submitted escalations the newest three reports suffice.
   */
  lemma {:induction false} WindowDecidesAsFullLog(config: Config, events: seq<Event>, bound: nat, signals: Signals, limit: nat, now: int)
    requires SubmitAtMost(config, events, bound) && bound <= SUBMITTABLE && bound + 3 <= limit
    ensures var log := RunEvents(config, events).Log();
            var window := Evaluate(config, signals, log, limit, now);
            var full := Evaluate(config, signals, log, |log|, now);
            && FindLatest(window.recent, OWNERSHIP) == FindLatest(full.recent, OWNERSHIP)
            && (!BuildRemediation(config, signals, None).posture.Ready? ==> window.ownership == full.ownership)
            && window.followUp.status == full.followUp.status
            && window.remediation == full.remediation
            && (EscalationDue(window) <==> EscalationDue(full))
  {
    var j := RunEvents(config, events);
    RunsAreWellPlaced(config, events, bound);
    WindowDecides(config, j.Log(), signals, limit, now);
  }

  /**
   * On every run with at most nine submitted escalations under one ownership action the owner read
   * while degraded is the newest owner in the whole history, for as long as retention has not
   * deleted that report.
   */
  lemma {:induction false} OwnerIsNewestOfHistory(config: Config, events: seq<Event>)
    requires SubmitAtMost(config, events, SUBMITTABLE)
    ensures var j := RunEvents(config, events);
            var newest := NewestIndex(j.history, OWNERSHIP);
            BuildOwnership(false, Newest(j.Log(), WINDOW)) ==
            if j.dropped <= newest then OwnedBy(j.history[newest]) else UNASSIGNED
  {
    RunsAreWellPlaced(config, events, SUBMITTABLE);
    OwnerIsNewestIn(RunEvents(config, events));
  }

  lemma OwnerIsNewestIn(j: Journal)
    requires j.Valid() && WellPlaced(j.Log(), WINDOW)
    ensures var newest := NewestIndex(j.history, OWNERSHIP);
            BuildOwnership(false, Newest(j.Log(), WINDOW)) ==
            if j.dropped <= newest then OwnedBy(j.history[newest]) else UNASSIGNED
  {
    FindLatestInWindow(j.Log(), OWNERSHIP, WINDOW);
    FindLatestInWindow(j.Log(), {Resolved}, WINDOW);
    NewestIndexOfSuffix(j.history, j.dropped, OWNERSHIP);
  }

  /**
   * On every run in which only the automation escalates, each escalation answers an overdue ownership action of the named owner, and
   * between any two escalations there is an ownership action strictly in between in time, although
   * each decision saw only a truncated and possibly swept listing.
   */
  lemma {:induction false} EscalationsAnswerOwnershipActions(config: Config, events: seq<Event>)
    requires AllAutomatic(events)
    ensures var h := RunEvents(config, events).history;
            && (forall i :: 0 <= i < |h| && h[i].kind == Escalated ==> Justified(config, h, i))
            && (forall a, b :: 0 <= a < b < |h| && h[a].kind == Escalated && h[b].kind == Escalated ==>
                  exists k :: a < k < b && h[k].kind in OWNERSHIP && h[a].at < h[k].at < h[b].at)
  {
    hide RunEvents;
    var h := RunEvents(config, events).history;
    RunsKeepInv(config, events);
    forall a, b | 0 <= a < b < |h| && h[a].kind == Escalated && h[b].kind == Escalated
      ensures exists k :: a < k < b && h[k].kind in OWNERSHIP && h[a].at < h[k].at < h[b].at
    {
      assert Justified(config, h, b);
      var k := NewestIndex(h[..b], OWNERSHIP);
      assert h[..b][k] == h[k] && h[..b][a] == h[a];
      assert a < k && h[a].at < h[k].at;
    }
  }

  /**
   * The failure path checks twice at one instant, and yet appends at most one report, whatever the
   * log holds: an overdue ownership action is older than the escalation just written.
   */
  lemma FailurePathEscalatesOnce(config: Config, j: Journal, e: Event)
    requires j.Valid() && e.RecordFailure?
    ensures |Exec(config, j, e).history| <= |j.history| + 1
  {
    var start := Tock(j, e.after);
    var once := EscalateIfNeeded(config, start, e.actor, e.signals);
    if once != start {
      assert once.Log()[|once.Log()| - 1] == once.history[|once.history| - 1];
      assert Newest(once.Log(), WINDOW)[0].kind == Escalated && Newest(once.Log(), WINDOW)[0].at == start.clock;
    }
  }

  /** The newest surviving ownership action is older than twice the follow-up window. */
  ghost predicate Overdue(config: Config, j: Journal)
    requires j.Valid()
  {
    var newest := NewestIndex(j.Log(), OWNERSHIP);
    0 <= newest && AgeMinutes(j.clock, j.Log()[newest].at) > 2 * FollowUpThreshold(config)
  }

  /**
   * No overdue owner is missed: after a status refresh under degraded signals, a newest ownership
   * action that is critically overdue has an escalation after it.
   */
  lemma {:induction false} OverdueOwnersAreEscalated(config: Config, events: seq<Event>, e: Event)
    requires SubmitAtMost(config, events, SUBMITTABLE) && e.RefreshStatus? && !AllHealthy(e.signals.ownership)
    requires Overdue(config, Tock(RunEvents(config, events), e.after))
    ensures var log := Exec(config, RunEvents(config, events), e).Log();
            NewestIndex(log, OWNERSHIP) < NewestIndex(log, {Escalated})
  {
    RunsAreWellPlaced(config, events, SUBMITTABLE);
    RefreshAnswersOverdueOwner(config, Tock(RunEvents(config, events), e.after), e.actor, e.signals);
  }

  lemma RefreshAnswersOverdueOwner(config: Config, start: Journal, actor: string, signals: Signals)
    requires start.Valid() && WellPlaced(start.Log(), WINDOW) && !AllHealthy(signals.ownership)
    requires Overdue(config, start)
    ensures var log := EscalateIfNeeded(config, start, actor, signals).Log();
            NewestIndex(log, OWNERSHIP) < NewestIndex(log, {Escalated})
  {
    var log := start.Log();
    DueMeansUnanswered(config, log, signals, start.clock);
    var status := Evaluate(config, signals, log, WINDOW, start.clock);
    if EscalationDue(status) {
      var report := EscalationReport(status, actor, start.clock);
      assert Append(start, report).Log() == log + [report];
      NewestIndexIsUnique(log + [report], {Escalated}, |log|);
      assert (log + [report])[|log|].kind !in OWNERSHIP;
    } else {
      var newest := NewestIndex(log, OWNERSHIP);
      assert log[newest].kind !in {Escalated};
    }
  }

  /**
   * What truncation can hide is an old resolution, and exactly this: while signals are healthy the
   * ownership read through the window differs from that of the complete surviving log if and only
   * if the newest resolution has slid out of the window.  The window then shows the owner, if any.
   */
  lemma {:induction false} WindowHidesOnlyOldResolutions(config: Config, events: seq<Event>)
    requires SubmitAtMost(config, events, SUBMITTABLE)
    ensures var log := RunEvents(config, events).Log();
            var window := BuildOwnership(true, Newest(log, WINDOW));
            var full := BuildOwnership(true, Newest(log, |log|));
            && (window != full <==> 0 <= NewestIndex(log, {Resolved}) < |log| - WINDOW)
            && (window != full ==> full.status == Closed && (window.status == Owned <==> 0 <= NewestIndex(log, OWNERSHIP)))
            && (window != full && AllAutomatic(events) ==> window.status == Owned)
  {
    RunsAreWellPlaced(config, events, SUBMITTABLE);
    WellPlacedWindowHidesResolutions(RunEvents(config, events).Log());
    if AllAutomatic(events) {
      AutomaticTailIsShort(config, events);
    }
  }

  lemma WellPlacedWindowHidesResolutions(log: seq<Report>)
    requires WellPlaced(log, WINDOW)
    ensures var window := BuildOwnership(true, Newest(log, WINDOW));
            var full := BuildOwnership(true, Newest(log, |log|));
            && (window != full <==> 0 <= NewestIndex(log, {Resolved}) < |log| - WINDOW)
            && (window != full ==> full.status == Closed && (window.status == Owned <==> 0 <= NewestIndex(log, OWNERSHIP)))
  {
    hide FindLatest, Newest, NewestIndex;
    FindLatestInWindow(log, OWNERSHIP, WINDOW);
    FindLatestInWindow(log, OWNERSHIP, |log|);
    FindLatestInWindow(log, {Resolved}, WINDOW);
    FindLatestInWindow(log, {Resolved}, |log|);
  }

  lemma {:induction false} AutomaticTailIsShort(config: Config, events: seq<Event>)
    requires AllAutomatic(events)
    ensures |RunEvents(config, events).Log()| - NewestIndex(RunEvents(config, events).Log(), OWNERSHIP) <= 3
  {
    RunsKeepInv(config, events);
    assert Settled(RunEvents(config, events).Log());
  }

  /**
   * Who can close a recovered posture, on every such run: given a runtime snapshot, the owner named
   * by the newest ownership action, or anybody when there is none, and exactly while no resolution
   * is among the newest twelve reports.
   */
  lemma {:induction false} ClosersAreExactly(config: Config, events: seq<Event>, signals: Signals, now: int,
                                             actor: string, chosen: Option<string>, published: bool)
    requires SubmitAtMost(config, events, SUBMITTABLE)
    requires BuildRemediation(config, signals, None).posture.Ready?
    ensures var log := RunEvents(config, events).Log();
            var newest := NewestIndex(log, OWNERSHIP);
            Guard(Evaluate(config, signals, log, WINDOW, now), actor, Resolved, chosen, published).None? <==>
            && published
            && (newest == -1 || CurrentOwner(log[newest]) in {"", actor})
            && (forall i :: 0 <= i < |log| && |log| - WINDOW <= i ==> log[i].kind != Resolved)
  {
    var log := RunEvents(config, events).Log();
    RunsAreWellPlaced(config, events, SUBMITTABLE);
    FindLatestInWindow(log, OWNERSHIP, WINDOW);
    FindLatestInWindow(log, {Resolved}, WINDOW);
    ResolutionGuard(config, signals, log, now, actor, chosen, published);
    FollowUpOnlyRaises(config, signals, Evaluate(config, signals, log, WINDOW, now).followUp.status);
  }

  /**
   * Which submitted actions are to be recorded, said of the complete surviving log:
   *
   * - acknowledging and assigning take unowned telemetry that is not in order, and an assignment a
   *   chosen operator other than the actor;
   * - transferring takes owned telemetry that is not in order, and a chosen operator other than the owner;
   * - re-acknowledging takes degraded telemetry whose owner, the actor unless nobody is named, is overdue;
   * - closing takes telemetry in order, the owner if there is one, no resolution in the window, and a snapshot;
   * - escalating takes nothing.
   */
  ghost predicate Recordable(config: Config, log: seq<Report>, e: Event, now: int)
    requires e.RecordAction?
  {
    var newest := NewestIndex(log, OWNERSHIP);
    match e.kind
    case Acknowledged => !InOrder(config, e.before) && newest == -1
    case Assigned => !InOrder(config, e.before) && newest == -1 && e.chosen.Some? && e.chosen.value != e.actor
    case Transferred =>
      && !InOrder(config, e.before) && 0 <= newest
      && e.chosen.Some? && (CurrentOwner(log[newest]) == "" || e.chosen.value != CurrentOwner(log[newest]))
    case Reacknowledged =>
      && (exists i :: 0 <= i < |e.before.ownership| && e.before.ownership[i] != Healthy)
      && 0 <= newest && CurrentOwner(log[newest]) in {"", e.actor}
      && (if config.followUpMinutes < 1 then 1 else config.followUpMinutes) < AgeMinutes(now, log[newest].at)
    case Resolved =>
      && InOrder(config, e.before) && e.published
      && (newest == -1 || CurrentOwner(log[newest]) in {"", e.actor})
      && (forall i :: 0 <= i < |log| && |log| - WINDOW <= i ==> log[i].kind != Resolved)
    case Escalated => true
  }

  /** On every such run exactly those actions are recorded, although the guards see a truncated listing. */
  lemma {:induction false} ActionsRecordedExactlyWhen(config: Config, events: seq<Event>, e: Event)
    requires SubmitAtMost(config, events, SUBMITTABLE) && e.RecordAction?
    ensures var j := RunEvents(config, events);
            Accepts(config, j, e) <==> Recordable(config, j.Log(), e, j.clock + e.after)
  {
    hide RunEvents, Accepts, Recordable;
    RunsAreWellPlaced(config, events, SUBMITTABLE);
    RecordedExactlyWhen(config, RunEvents(config, events), e);
  }

  lemma RecordedExactlyWhen(config: Config, j: Journal, e: Event)
    requires j.Valid() && WellPlaced(j.Log(), WINDOW) && e.RecordAction?
    ensures Accepts(config, j, e) <==> Recordable(config, j.Log(), e, j.clock + e.after)
  {
    var log, now := j.Log(), j.clock + e.after;
    assert Tock(j, e.after).Log() == log;
    var status := Evaluate(config, e.before, log, WINDOW, now);
    assert Accepts(config, j, e) <==> Guard(status, e.actor, e.kind, e.chosen, e.published).None?;
    StatusReadsLog(config, e.before, log, now);
    GuardReadsLog(config, log, e, now, status);
    hide Accepts, Guard, Evaluate, Recordable, ReadsLog;
  }

  lemma GuardReadsLog(config: Config, log: seq<Report>, e: Event, now: int, status: Status)
    requires e.RecordAction? && ReadsLog(config, e.before, log, now, status)
    ensures Guard(status, e.actor, e.kind, e.chosen, e.published).None? <==> Recordable(config, log, e, now)
  {
    AcceptedExactlyWhen(status, e.actor, e.kind, e.chosen, e.published);
    hide Guard, NewestIndex, InOrder, AgeMinutes;
    match e.kind
    case Acknowledged =>
    case Assigned =>
    case Transferred =>
    case Reacknowledged =>
    case Resolved =>
    case Escalated =>
  }

  /** When no guard refuses, in terms of the evaluated status. */
  lemma AcceptedExactlyWhen(status: Status, actor: string, kind: ActionKind, chosen: Option<string>, published: bool)
    ensures var healthy := status.remediation.recommendation == NoAction;
            var owner := status.ownership.actor.GetOr("");
            var owned := status.ownership.status == Owned;
            var own := !owned || owner in {"", actor};
            Guard(status, actor, kind, chosen, published).None? <==>
            match kind
            case Acknowledged => !healthy && !owned
            case Assigned => !healthy && !owned && chosen.Some? && chosen.value != actor && (owner == "" || chosen.value != owner)
            case Transferred => !healthy && owned && chosen.Some? && (owner == "" || chosen.value != owner)
            case Reacknowledged => own && !healthy && owned && status.followUp.status != FollowUpReady
            case Resolved => own && healthy && status.ownership.status != Closed && published
            case Escalated => true
  {
    match kind
    case Acknowledged =>
    case Assigned =>
    case Transferred =>
    case Reacknowledged =>
    case Resolved =>
    case Escalated =>
  }

  /** Why a submitted action is refused, the first reason that applies, in terms of the evaluated status. */
  lemma RefusedExactlyWhy(status: Status, actor: string, kind: ActionKind, chosen: Option<string>, published: bool)
    ensures var refusal := Guard(status, actor, kind, chosen, published);
            var healthy := status.remediation.recommendation == NoAction;
            var owner := status.ownership.actor.GetOr("");
            var owned, closed := status.ownership.status == Owned, status.ownership.status == Closed;
            var elsewhere := owned && owner != "" && owner != actor;
            var handOver := kind in {Assigned, Transferred} && !healthy && chosen.Some?;
            var again := kind == Reacknowledged && !elsewhere && !healthy;
            var closing := kind == Resolved && !elsewhere && healthy;
            && (refusal == Some(NothingToAcknowledge) <==> kind == Acknowledged && healthy)
            && (refusal == Some(AlreadyAcknowledged) <==> kind == Acknowledged && !healthy && owned)
            && (refusal == Some(NothingToAssign) <==> kind in {Assigned, Transferred} && healthy)
            && (refusal == Some(UnknownOwner) <==> kind in {Assigned, Transferred} && !healthy && chosen.None?)
            && (refusal == Some(AlreadyOwned) <==> handOver && kind == Assigned && owned)
            && (refusal == Some(NotYetOwned) <==> handOver && kind == Transferred && !owned)
            && (refusal == Some(SelfAssignment) <==> handOver && kind == Assigned && !owned && chosen == Some(actor))
            && (refusal == Some(SameOwner) <==>
                  && handOver && owner != "" && chosen == Some(owner)
                  && (if kind == Assigned then !owned && chosen != Some(actor) else owned))
            && (refusal == Some(OwnedByAnother) <==> kind in {Reacknowledged, Resolved} && elsewhere)
            && (refusal == Some(NothingToReacknowledge) <==> kind == Reacknowledged && !elsewhere && healthy)
            && (refusal == Some(NotAcknowledged) <==> again && !owned)
            && (refusal == Some(FollowUpNotDue) <==> again && owned && status.followUp.status == FollowUpReady)
            && (refusal == Some(StillDegraded) <==> kind == Resolved && !elsewhere && !healthy)
            && (refusal == Some(AlreadyResolved) <==> closing && closed)
            && (refusal == Some(NoRuntimeSnapshot) <==> closing && !closed && !published)
  {
    if status.ownership.actor.Some? {
      assert status.ownership.actor == Some(status.ownership.actor.value);
    }
    match kind
    case Acknowledged =>
    case Assigned =>
    case Transferred =>
    case Reacknowledged =>
    case Resolved =>
    case Escalated =>
  }

  /** Whether the owner had been handed the remediation within the listing. */
  ghost predicate HandedTo(owner: string, listing: seq<Report>) {
    exists r :: r in listing && r.kind in {Assigned, Transferred} && r.owner == Some(owner)
  }

  /** A verdict on `owner`: met exactly when the owner acted since the latest hand-over, up to now. */
  ghost predicate Judges(verdict: Option<Accountability>, owner: string, status: Status, trigger: ActionKind, now: int) {
    && (verdict.Some? <==> owner != "" && HandedTo(owner, status.recent))
    && (verdict.Some? ==>
          && verdict.value.owner == owner && verdict.value.trigger == trigger && verdict.value.evaluatedAt == now
          && FindLatestAssignment(owner, status.recent).Some?
          && (verdict.value.outcome == Met <==>
                exists at :: ActedWithin(owner, status.recent, status.runs, FindLatestAssignment(owner, status.recent).value.at, Some(now), at)))
  }

  /** What a recorded action writes; only a transfer judges, and it judges the owner it takes over from. */
  lemma OperatorReportIsExactly(status: Status, actor: string, kind: ActionKind, chosen: Option<string>, now: int)
    ensures var report := OperatorReport(status, actor, kind, chosen, now);
            && report.kind == kind && report.at == now && report.actor == actor
            && report.owner == Some(if kind in {Assigned, Transferred} && chosen.Some? then chosen.value else actor)
            && if kind == Transferred then Judges(report.accountability, status.ownership.actor.GetOr(""), status, Transferred, now)
               else report.accountability == None
  {
    VerdictJudges(status.ownership.actor.GetOr(""), status, Transferred, now);
  }

  /** What an escalation writes: it judges the owner in force, or without one the latest assignee. */
  lemma EscalationReportIsExactly(status: Status, actor: string, now: int)
    ensures var report := EscalationReport(status, actor, now);
            var handOver := FindLatest(status.recent, {Assigned, Transferred});
            && report.kind == Escalated && report.at == now && report.actor == actor
            && report.owner == Some(if status.ownership.actor.Some? then status.ownership.actor.value else actor)
            && (handOver.None? ==> report.accountability == None)
            && (handOver.Some? ==>
                  Judges(report.accountability,
                         if status.ownership.actor.Some? then status.ownership.actor.value else handOver.value.owner.GetOr(""),
                         status, Escalated, now))
  {
    var handOver := FindLatest(status.recent, ASSIGNMENT);
    if handOver.Some? {
      VerdictJudges(if status.ownership.actor.Some? then status.ownership.actor.value else handOver.value.owner.GetOr(""), status, Escalated, now);
    }
  }

  lemma VerdictJudges(owner: string, status: Status, trigger: ActionKind, now: int)
    ensures Judges(BuildAccountability(Some(owner), status.recent, status.runs, trigger, now), owner, status, trigger, now)
    ensures FindLatestAssignment(owner, status.recent).Some? <==> HandedTo(owner, status.recent)
    ensures owner == "" ==> BuildAccountability(None, status.recent, status.runs, trigger, now) == None
  {
    if r :| r in status.recent && HandsOverTo(owner, r) {
      assert HandedTo(owner, status.recent);
    }
    if owner != "" {
      AccountabilityIsMetExactlyWhenActed(owner, status.recent, status.runs, trigger, now);
    }
  }

  /** The status says of health, ownership and follow-up what the complete log says. */
  ghost predicate ReadsLog(config: Config, signals: Signals, log: seq<Report>, now: int, status: Status) {
    var newest := NewestIndex(log, OWNERSHIP);
    var closed := InOrder(config, signals) && exists i :: 0 <= i < |log| && |log| - WINDOW <= i && log[i].kind == Resolved;
    && (status.remediation.recommendation == NoAction <==> InOrder(config, signals))
    && (status.ownership.status == Closed <==> closed)
    && (status.ownership.status == Owned <==> !closed && 0 <= newest)
    && (status.ownership.status == Owned ==> status.ownership.actor == Some(CurrentOwner(log[newest])))
    && (status.ownership.status == Unassigned ==> status.ownership.actor == None)
    && (status.followUp.status != FollowUpReady <==>
          && (exists i :: 0 <= i < |signals.ownership| && signals.ownership[i] != Healthy)
          && 0 <= newest
          && (if config.followUpMinutes < 1 then 1 else config.followUpMinutes) < AgeMinutes(now, log[newest].at))
  }

  lemma StatusReadsLog(config: Config, signals: Signals, log: seq<Report>, now: int)
    requires WellPlaced(log, WINDOW)
    ensures ReadsLog(config, signals, log, now, Evaluate(config, signals, log, WINDOW, now))
  {
    var status := Evaluate(config, signals, log, WINDOW, now);
    RemediationIsExactly(config, signals, None);
    RemediationIsExactly(config, signals, Some(status.followUp.status));
    OwnershipIsExactly(InOrder(config, signals), log, WINDOW);
    FollowUpIsExactly(config, signals.ownership, status.ownership, now);
    assert status.ownership == BuildOwnership(InOrder(config, signals), Newest(log, WINDOW));
    var closed := NewestIndex(log, {Resolved});
    assert (0 <= closed && |log| - WINDOW <= closed) <==> exists i :: 0 <= i < |log| && |log| - WINDOW <= i && log[i].kind == Resolved;
    hide Evaluate, BuildOwnership, BuildFollowUp, BuildRemediation, Newest, NewestIndex, InOrder, AllHealthy, AgeMinutes, WellPlaced;
  }

  /** A handover is to somebody else than the current owner, and an assignment never to oneself. */
  lemma HandOversChangeOwner(status: Status, actor: string, kind: ActionKind, chosen: Option<string>, published: bool, now: int)
    requires kind in ASSIGNMENT && Guard(status, actor, kind, chosen, published).None?
    ensures var report := OperatorReport(status, actor, kind, chosen, now);
            && report.owner == chosen
            && (status.ownership.actor.GetOr("") != "" ==> Some(CurrentOwner(report)) != status.ownership.actor)
            && (kind == Assigned ==> CurrentOwner(report) != actor)
  {
  }

  /** A re-acknowledgement was made by the owner in force, named by the newest ownership action. */
  ghost predicate ByOwner(history: seq<Report>, index: nat)
    requires index < |history|
  {
    history[index].kind == Reacknowledged ==>
      var inForce := NewestIndex(history[..index], OWNERSHIP);
      0 <= inForce && CurrentOwner(history[inForce]) in {history[index].actor, ""}
  }

  ghost predicate Disciplined(history: seq<Report>) {
    forall i :: 0 <= i < |history| ==> ByOwner(history, i)
  }

  lemma AppendKeepsDisciplined(history: seq<Report>, report: Report)
    requires Disciplined(history) && ByOwner(history + [report], |history|)
    ensures Disciplined(history + [report])
  {
    var longer := history + [report];
    forall i | 0 <= i < |longer| ensures ByOwner(longer, i) {
      if i < |history| {
        assert longer[..i] == history[..i];
        assert ByOwner(history, i);
      }
    }
  }

  lemma EscalateKeepsDisciplined(config: Config, j: Journal, actor: string, signals: Signals)
    requires j.Valid() && Disciplined(j.history)
    ensures Disciplined(EscalateIfNeeded(config, j, actor, signals).history)
  {
    var status := Evaluate(config, signals, j.Log(), WINDOW, j.clock);
    if EscalationDue(status) {
      AppendKeepsDisciplined(j.history, EscalationReport(status, actor, j.clock));
    }
  }

  lemma AcceptedIsByOwner(config: Config, start: Journal, actor: string, kind: ActionKind, chosen: Option<string>, published: bool, signals: Signals)
    requires start.Valid() && WellPlaced(start.Log(), WINDOW)
    requires Guard(Evaluate(config, signals, start.Log(), WINDOW, start.clock), actor, kind, chosen, published).None?
    ensures var status := Evaluate(config, signals, start.Log(), WINDOW, start.clock);
            ByOwner(start.history + [OperatorReport(status, actor, kind, chosen, start.clock)], |start.history|)
  {
    var status := Evaluate(config, signals, start.Log(), WINDOW, start.clock);
    var h := start.history;
    assert (h + [OperatorReport(status, actor, kind, chosen, start.clock)])[..|h|] == h;
    FindLatestInWindow(start.Log(), OWNERSHIP, WINDOW);
    NewestIndexOfSuffix(h, start.dropped, OWNERSHIP);
  }

  lemma RecordKeepsDisciplined(config: Config, start: Journal, actor: string, kind: ActionKind, chosen: Option<string>, published: bool, signals: Signals)
    requires start.Valid() && WellPlaced(start.Log(), WINDOW) && Disciplined(start.history)
    requires Guard(Evaluate(config, signals, start.Log(), WINDOW, start.clock), actor, kind, chosen, published).None?
    ensures var status := Evaluate(config, signals, start.Log(), WINDOW, start.clock);
            Disciplined(start.history + [OperatorReport(status, actor, kind, chosen, start.clock)])
  {
    var status := Evaluate(config, signals, start.Log(), WINDOW, start.clock);
    AcceptedIsByOwner(config, start, actor, kind, chosen, published, signals);
    AppendKeepsDisciplined(start.history, OperatorReport(status, actor, kind, chosen, start.clock));
  }

  lemma ExecKeepsDisciplined(config: Config, j: Journal, e: Event)
    requires j.Valid() && WellPlaced(j.Log(), WINDOW) && Disciplined(j.history)
    ensures Disciplined(Exec(config, j, e).history)
  {
    match e
    case Sweep(_) =>
    case RefreshStatus(after, actor, signals) =>
      EscalateKeepsDisciplined(config, Tock(j, after), actor, signals);
    case RecordFailure(after, actor, signals, refreshed) =>
      EscalateKeepsDisciplined(config, Tock(j, after), actor, signals);
      EscalateKeepsDisciplined(config, EscalateIfNeeded(config, Tock(j, after), actor, signals), actor, refreshed);
    case RecordAction(after, actor, kind, chosen, published, before, swept, refreshed) =>
      var start := Tock(j, after);
      var status := Evaluate(config, before, start.Log(), WINDOW, start.clock);
      if Guard(status, actor, kind, chosen, published).None? {
        RecordKeepsDisciplined(config, start, actor, kind, chosen, published, before);
        var recorded := Append(start, OperatorReport(status, actor, kind, chosen, start.clock));
        EscalateKeepsDisciplined(config, Drop(recorded, swept), actor, refreshed);
      }
  }

  /** On every such run only owners re-acknowledge. */
  lemma {:induction false} OnlyOwnersReacknowledge(config: Config, events: seq<Event>)
    requires SubmitAtMost(config, events, SUBMITTABLE)
    ensures Disciplined(RunEvents(config, events).history)
  {
    if events != [] {
      var front := events[..|events| - 1];
      OnlyOwnersReacknowledge(config, front);
      RunsAreWellPlaced(config, front, SUBMITTABLE);
      ExecKeepsDisciplined(config, RunEvents(config, front), events[|events| - 1]);
    }
  }

  // ---------------------------------------------------------------------------------------------
  // Where the protocol falls short, and exactly when
  // ---------------------------------------------------------------------------------------------

  /** Of any log whatever: the window shows the true owner unless twelve later reports cover it. */
  lemma WindowShowsOwnerExactlyWhen(log: seq<Report>)
    ensures FindLatest(Newest(log, WINDOW), OWNERSHIP) == FindLatest(Newest(log, |log|), OWNERSHIP) <==>
            NewestIndex(log, OWNERSHIP) == -1 || |log| - WINDOW <= NewestIndex(log, OWNERSHIP)
  {
    FindLatestInWindow(log, OWNERSHIP, WINDOW);
    FindLatestInWindow(log, OWNERSHIP, |log|);
  }

  const DEGRADED := Signals([Critical], [])
  const HEALTHY := Signals([Healthy], [])

  const SUBMISSION := RecordAction(1, "o@x", Escalated, None, true, DEGRADED, 0, HEALTHY)

  /** The recording operation accepts a submitted escalation without any check on the kind of action. */
  function SubmitEscalations(count: nat): (events: seq<Event>)
    ensures |events| == count
  {
    if count == 0 then []
    else SubmitEscalations(count - 1) + [SUBMISSION]
  }

  const ACKNOWLEDGE := RecordAction(1, "a@x", Acknowledged, None, true, DEGRADED, 0, HEALTHY)
  const RESOLVE := RecordAction(1, "a@x", Resolved, None, true, HEALTHY, 0, HEALTHY)
  const HAND_OVER := RecordAction(1, "a@x", Transferred, Some("b@x"), true, DEGRADED, 0, HEALTHY)

  /** `after` is `j` with one more report, of the given kind and owner, written at its clock. */
  ghost predicate OneMore(j: Journal, after: Journal, kind: ActionKind, owner: string) {
    && after.dropped == j.dropped
    && |after.history| == |j.history| + 1
    && (forall i :: 0 <= i < |j.history| ==> after.history[i] == j.history[i])
    && var report := after.history[|j.history|];
       report.kind == kind && report.at == after.clock && CurrentOwner(report) == owner
  }

  /** An accepted action, followed by healthy signals and no deletion, adds one report. */
  lemma AcceptedActionIsWritten(config: Config, j: Journal, e: Event)
    requires j.Valid() && Accepts(config, j, e) && e.swept == 0 && AllHealthy(e.refreshed.ownership)
    ensures OneMore(j, Exec(config, j, e), e.kind, if e.kind in ASSIGNMENT then e.chosen.GetOr(e.actor) else e.actor)
  {
  }

  lemma FirstAcknowledgementIsAccepted(config: Config)
    ensures OneMore(EMPTY, Exec(config, EMPTY, ACKNOWLEDGE), Acknowledged, "a@x")
  {
    assert Tock(EMPTY, 1).Log() == [];
    assert !DEGRADED.ownership[0].Healthy?;
    AcceptedActionIsWritten(config, EMPTY, ACKNOWLEDGE);
  }

  /** `j` is `start` with `count` more reports, all of them escalations. */
  ghost predicate PiledUp(start: Journal, j: Journal, count: nat) {
    && j.dropped == start.dropped && |j.history| == |start.history| + count
    && (forall i :: 0 <= i < |start.history| ==> j.history[i] == start.history[i])
    && (forall i :: |start.history| <= i < |j.history| ==> j.history[i].kind == Escalated)
  }

  lemma SubmissionIsWritten(config: Config, j: Journal)
    requires j.Valid()
    ensures OneMore(j, Exec(config, j, SUBMISSION), Escalated, "o@x")
  {
    AcceptedActionIsWritten(config, j, SUBMISSION);
  }

  lemma RunOneSubmission(config: Config, front: seq<Event>)
    ensures OneMore(RunEvents(config, front), RunEvents(config, front + [SUBMISSION]), Escalated, "o@x")
  {
    hide RunEvents, Exec;
    RunStep(config, front, SUBMISSION);
    SubmissionIsWritten(config, RunEvents(config, front));
  }

  lemma OneMorePiledUp(start: Journal, j: Journal, after: Journal, count: nat)
    requires PiledUp(start, j, count) && OneMore(j, after, Escalated, "o@x")
    ensures PiledUp(start, after, count + 1)
  {
  }

  lemma RunStep(config: Config, front: seq<Event>, e: Event)
    ensures RunEvents(config, front + [e]) == Exec(config, RunEvents(config, front), e)
  {
    hide Exec;
    assert (front + [e])[..|front|] == front;
  }

  /** Each submission after `first` adds one escalation to the history. */
  lemma {:induction false} SubmittedEscalationsPileUp(config: Config, first: seq<Event>, count: nat)
    ensures PiledUp(RunEvents(config, first), RunEvents(config, first + SubmitEscalations(count)), count)
  {
    hide RunEvents, Exec;
    if count == 0 {
      assert first + SubmitEscalations(0) == first;
    } else {
      var front := first + SubmitEscalations(count - 1);
      SubmittedEscalationsPileUp(config, first, count - 1);
      assert first + SubmitEscalations(count) == front + [SUBMISSION];
      RunOneSubmission(config, front);
      OneMorePiledUp(RunEvents(config, first), RunEvents(config, front), RunEvents(config, front + [SUBMISSION]), count - 1);
    }
  }

  /** When all but the last `count` events are automatic, at most `count` escalations are submitted. */
  lemma {:induction false} SubmissionsAreCounted(config: Config, events: seq<Event>, count: nat)
    requires count <= |events| && forall i :: 0 <= i < |events| - count ==> Automatic(events[i])
    ensures SubmitAtMost(config, events, count) && Submitted(config, events) <= count
  {
    hide RunEvents, NextSubmitted;
    if count == 0 {
      AutomaticRunsSubmitNothing(config, events);
    } else {
      var front := events[..|events| - 1];
      SubmissionsAreCounted(config, front, count - 1);
      SubmitAtMostGrows(config, front, count - 1, count);
      OneStepSubmitsOnce(config, events);
    }
  }

  lemma OneStepSubmitsOnce(config: Config, events: seq<Event>)
    requires events != []
    ensures Submitted(config, events) <= Submitted(config, events[..|events| - 1]) + 1
  {
    hide RunEvents, NextSubmitted;
  }

  lemma {:induction false} SubmitAtMostGrows(config: Config, events: seq<Event>, less: nat, more: nat)
    requires SubmitAtMost(config, events, less) && less <= more
    ensures SubmitAtMost(config, events, more)
  {
    if events != [] {
      SubmitAtMostGrows(config, events[..|events| - 1], less, more);
    }
  }

  /** A refresh that finds the acknowledgement of the instant before overdue. */
  function LateRefresh(config: Config): Event {
    RefreshStatus(MINUTE * (2 * FollowUpThreshold(config) + 1), "a@x", DEGRADED)
  }

  lemma LateRefreshEscalates(config: Config, j: Journal)
    requires j.dropped == 0 && |j.history| == 1 && j.history[0].kind == Acknowledged && j.history[0].at == j.clock
    ensures var after := Exec(config, j, LateRefresh(config));
            && after.dropped == 0 && |after.history| == 2
            && after.history[0] == j.history[0] && after.history[1].kind == Escalated
  {
    var start := Tock(j, LateRefresh(config).after);
    assert start.Log() == j.history;
    NewestIndexIsUnique(j.history, OWNERSHIP, 0);
    NewestIndexIsUnique(j.history, {Escalated}, -1);
    assert !DEGRADED.ownership[0].Healthy?;
    DueMeansUnanswered(config, j.history, DEGRADED, start.clock);
  }

  /** a@x acknowledges, is escalated automatically, and closes the recovered posture. */
  function EscalatedAndClosed(config: Config): seq<Event> {
    [ACKNOWLEDGE, LateRefresh(config), RESOLVE]
  }

  lemma RunToAcknowledgement(config: Config)
    ensures OneMore(EMPTY, RunEvents(config, [ACKNOWLEDGE]), Acknowledged, "a@x")
  {
    hide Exec;
    assert [] + [ACKNOWLEDGE] == [ACKNOWLEDGE];
    RunStep(config, [], ACKNOWLEDGE);
    FirstAcknowledgementIsAccepted(config);
  }

  lemma RunToEscalation(config: Config)
    ensures var j := RunEvents(config, [ACKNOWLEDGE, LateRefresh(config)]);
            && j.dropped == 0 && |j.history| == 2
            && j.history[0].kind == Acknowledged && CurrentOwner(j.history[0]) == "a@x" && j.history[1].kind == Escalated
  {
    hide RunEvents, Exec;
    assert [ACKNOWLEDGE] + [LateRefresh(config)] == [ACKNOWLEDGE, LateRefresh(config)];
    RunStep(config, [ACKNOWLEDGE], LateRefresh(config));
    RunToAcknowledgement(config);
    LateRefreshEscalates(config, RunEvents(config, [ACKNOWLEDGE]));
  }

  lemma RunToClosure(config: Config)
    ensures var j := RunEvents(config, EscalatedAndClosed(config));
            && j.dropped == 0 && |j.history| == 3
            && j.history[0].kind == Acknowledged && j.history[1].kind == Escalated && j.history[2].kind == Resolved
  {
    hide RunEvents, Exec;
    assert [ACKNOWLEDGE, LateRefresh(config)] + [RESOLVE] == EscalatedAndClosed(config);
    RunToEscalation(config);
    RunOwnerResolves(config, [ACKNOWLEDGE, LateRefresh(config)]);
  }

  lemma RunOwnerResolves(config: Config, front: seq<Event>)
    requires Closable(RunEvents(config, front))
    ensures OneMore(RunEvents(config, front), RunEvents(config, front + [RESOLVE]), Resolved, "a@x")
  {
    hide RunEvents, Exec;
    RunStep(config, front, RESOLVE);
    OwnerResolves(config, RunEvents(config, front));
  }

  /**
   * The bound of nine is the exact limit: from ten escalations submitted under one ownership action
   * on, besides an automatic one and a resolution, the owner is hidden from every later decision.
   */
  lemma SubmittedEscalationsHideTheOwner(config: Config, count: nat)
    requires SUBMITTABLE < count
    ensures var events := EscalatedAndClosed(config) + SubmitEscalations(count);
            var log := RunEvents(config, events).Log();
            && SubmitAtMost(config, events, count)
            && BuildOwnership(false, Newest(log, |log|)).status == Owned
            && BuildOwnership(false, Newest(log, WINDOW)) == UNASSIGNED
  {
    hide RunEvents, Exec;
    var first := EscalatedAndClosed(config);
    RunToClosure(config);
    SubmissionsAreCounted(config, first + SubmitEscalations(count), count);
    SubmittedEscalationsPileUp(config, first, count);
    PileHidesTheOwner(RunEvents(config, first), RunEvents(config, first + SubmitEscalations(count)), count);
  }

  lemma PileHidesTheOwner(start: Journal, j: Journal, count: nat)
    requires PiledUp(start, j, count) && SUBMITTABLE < count && start.dropped == 0 && |start.history| == 3
    requires start.history[0].kind == Acknowledged && start.history[1].kind == Escalated && start.history[2].kind == Resolved
    ensures j.Valid()
    ensures BuildOwnership(false, Newest(j.Log(), |j.Log()|)).status == Owned
    ensures BuildOwnership(false, Newest(j.Log(), WINDOW)) == UNASSIGNED
  {
    assert j.Log() == j.history;
    CoveredOwnerIsHidden(j.Log());
  }

  lemma CoveredOwnerIsHidden(log: seq<Report>)
    requires WINDOW < |log| && log[0].kind in OWNERSHIP
    requires forall i :: 1 <= i < |log| ==> log[i].kind !in OWNERSHIP
    ensures BuildOwnership(false, Newest(log, |log|)).status == Owned
    ensures BuildOwnership(false, Newest(log, WINDOW)) == UNASSIGNED
  {
    NewestIndexIsUnique(log, OWNERSHIP, 0);
    FindLatestInWindow(log, OWNERSHIP, WINDOW);
    FindLatestInWindow(log, OWNERSHIP, |log|);
  }

  /**
   * A concrete run of the shortfall: a@x acknowledges and resolves, signals degrade, a@x hands over
   * to b@x, signals recover.  The newest report names b@x as owner, yet b@x cannot close the
   * posture, because the older resolution is still in the window.
   */
  lemma NewOwnerCannotClose(config: Config)
    ensures var log := Exec(config, Exec(config, Exec(config, EMPTY, ACKNOWLEDGE), RESOLVE), HAND_OVER).Log();
            && |log| == 3 && log[2].kind == Transferred && CurrentOwner(log[2]) == "b@x"
            && Guard(Evaluate(config, HEALTHY, log, WINDOW, 4), "b@x", Resolved, None, true) == Some(AlreadyResolved)
  {
    FirstAcknowledgementIsAccepted(config);
    var j1 := Exec(config, EMPTY, ACKNOWLEDGE);
    OwnerResolves(config, j1);
    var j2 := Exec(config, j1, RESOLVE);
    HandOverAfterResolve(config, j2);
    OldResolutionBlocks(config, Exec(config, j2, HAND_OVER).Log());
  }

  lemma OldResolutionBlocks(config: Config, log: seq<Report>)
    requires |log| == 3 && log[1].kind == Resolved && log[2].kind == Transferred
    ensures Guard(Evaluate(config, HEALTHY, log, WINDOW, 4), "b@x", Resolved, None, true) == Some(AlreadyResolved)
  {
    NewestIndexIsUnique(log, {Resolved}, 1);
    FindLatestInWindow(log, {Resolved}, WINDOW);
  }

  /** Acknowledged by a@x and since then only escalated. */
  ghost predicate Closable(j: Journal) {
    && j.dropped == 0 && 0 < |j.history| <= WINDOW
    && j.history[0].kind == Acknowledged && CurrentOwner(j.history[0]) == "a@x"
    && forall i :: 1 <= i < |j.history| ==> j.history[i].kind == Escalated
  }

  lemma OwnerResolves(config: Config, j: Journal)
    requires Closable(j)
    ensures OneMore(j, Exec(config, j, RESOLVE), Resolved, "a@x")
  {
    hide Exec, FindLatest, Newest, NewestIndex;
    assert Tock(j, 1).Log() == j.history;
    NewestIndexIsUnique(j.history, OWNERSHIP, 0);
    NewestIndexIsUnique(j.history, {Resolved}, -1);
    FindLatestInWindow(j.history, OWNERSHIP, WINDOW);
    FindLatestInWindow(j.history, {Resolved}, WINDOW);
    ResolutionGuard(config, HEALTHY, j.history, j.clock + 1, "a@x", None, true);
    assert Accepts(config, j, RESOLVE);
    AcceptedActionIsWritten(config, j, RESOLVE);
  }

  lemma HandOverAfterResolve(config: Config, j: Journal)
    requires j.dropped == 0 && |j.history| == 2
    requires j.history[0].kind == Acknowledged && CurrentOwner(j.history[0]) == "a@x" && j.history[1].kind == Resolved
    ensures OneMore(j, Exec(config, j, HAND_OVER), Transferred, "b@x")
  {
    assert Tock(j, 1).Log() == j.history;
    NewestIndexIsUnique(j.history, OWNERSHIP, 0);
    FindLatestInWindow(j.history, OWNERSHIP, WINDOW);
    assert !DEGRADED.ownership[0].Healthy?;
    var status := Evaluate(config, DEGRADED, j.history, WINDOW, j.clock + 1);
    assert status.ownership == OwnedBy(j.history[0]) && !status.remediation.recommendation.NoAction?;
    AcceptedActionIsWritten(config, j, HAND_OVER);
  }

  /** Without deletions any two resolutions lie more than a window apart. */
  ghost predicate ResolutionsFarApart(j: Journal) {
    j.dropped == 0 ==>
      forall a, b :: 0 <= a < b < |j.history| && j.history[a].kind == Resolved && j.history[b].kind == Resolved ==>
        WINDOW < b - a
  }

  lemma EscalateKeepsResolutionsFarApart(config: Config, j: Journal, actor: string, signals: Signals)
    requires j.Valid() && ResolutionsFarApart(j)
    ensures ResolutionsFarApart(EscalateIfNeeded(config, j, actor, signals))
  {
  }

  lemma ExecKeepsResolutionsFarApart(config: Config, j: Journal, e: Event)
    requires j.Valid() && ResolutionsFarApart(j)
    ensures ResolutionsFarApart(Exec(config, j, e))
  {
    match e
    case Sweep(_) =>
    case RefreshStatus(after, actor, signals) =>
      EscalateKeepsResolutionsFarApart(config, Tock(j, after), actor, signals);
    case RecordFailure(after, actor, signals, refreshed) =>
      EscalateKeepsResolutionsFarApart(config, Tock(j, after), actor, signals);
      EscalateKeepsResolutionsFarApart(config, EscalateIfNeeded(config, Tock(j, after), actor, signals), actor, refreshed);
    case RecordAction(after, actor, kind, chosen, published, before, swept, refreshed) =>
      var start := Tock(j, after);
      var status := Evaluate(config, before, start.Log(), WINDOW, start.clock);
      if Guard(status, actor, kind, chosen, published).None? {
        var recorded := Append(start, OperatorReport(status, actor, kind, chosen, start.clock));
        RecordKeepsResolutionsFarApart(config, start, actor, kind, chosen, published, before);
        EscalateKeepsResolutionsFarApart(config, Drop(recorded, swept), actor, refreshed);
      }
  }

  lemma RecordKeepsResolutionsFarApart(config: Config, start: Journal, actor: string, kind: ActionKind, chosen: Option<string>, published: bool, signals: Signals)
    requires start.Valid() && ResolutionsFarApart(start)
    requires Guard(Evaluate(config, signals, start.Log(), WINDOW, start.clock), actor, kind, chosen, published).None?
    ensures var status := Evaluate(config, signals, start.Log(), WINDOW, start.clock);
            ResolutionsFarApart(Append(start, OperatorReport(status, actor, kind, chosen, start.clock)))
  {
    if kind == Resolved && start.dropped == 0 {
      var h := start.history;
      assert start.Log() == h;
      ResolutionGuard(config, signals, h, start.clock, actor, chosen, published);
      FindLatestInWindow(h, {Resolved}, WINDOW);
      assert forall a :: 0 <= a < |h| && h[a].kind == Resolved ==> a < |h| - WINDOW;
    }
  }

  /**
   * Closure is rationed by the window: on every run without deletions, operators' escalations or
   * not, more than twelve reports separate any two resolutions.
   */
  lemma {:induction false} RunsKeepResolutionsFarApart(config: Config, events: seq<Event>)
    ensures ResolutionsFarApart(RunEvents(config, events))
  {
    if events != [] {
      var front := events[..|events| - 1];
      RunsKeepResolutionsFarApart(config, front);
      ExecKeepsResolutionsFarApart(config, RunEvents(config, front), events[|events| - 1]);
    }
  }

  // ---------------------------------------------------------------------------------------------
  // The report directory, updated in place
  // ---------------------------------------------------------------------------------------------

  class ReportDirectory {
    const config: Config
    var reports: seq<Report>
    var clock: int
    ghost var deleted: seq<Report>

    ghost function State(): (j: Journal)
      reads this
      ensures j.Valid() && j.Log() == reports
    {
      Journal(deleted + reports, |deleted|, clock)
    }

    constructor (config: Config)
      ensures this.config == config && State() == EMPTY
    {
      this.config := config;
      reports, clock, deleted := [], 0, [];
    }

    method Persist(report: Report)
      modifies this`reports
      ensures State() == Append(old(State()), report)
    {
      reports := reports + [report];
      assert deleted + reports == old(deleted + reports) + [report];
    }

    method PersistEscalationIfNeeded(status: Status, actor: string) returns (written: Option<Report>)
      modifies this`reports
      ensures written == if EscalationDue(status) then Some(EscalationReport(status, actor, clock)) else None
      ensures reports == old(reports) + if written.Some? then [written.value] else []
    {
      if !status.followUp.status.FollowUpCritical? {
        return None;
      }
      var latestEscalation := FindLatest(status.recent, {Escalated});
      var latestOwnership := FindLatest(status.recent, OWNERSHIP);
      if latestEscalation.Some? && latestOwnership.Some? && latestOwnership.value.at <= latestEscalation.value.at {
        return None;
      }
      var report := EscalationReport(status, actor, clock);
      reports := reports + [report];
      return Some(report);
    }

    /** The tail of every operation: re-evaluate, escalate when due. */
    method SyncFromCurrentStatus(actor: string, signals: Signals)
      modifies this`reports
      ensures State() == EscalateIfNeeded(config, old(State()), actor, signals)
    {
      var status := Evaluate(config, signals, reports, WINDOW, clock);
      var written := PersistEscalationIfNeeded(status, actor);
      assert written.Some? ==> deleted + reports == deleted + old(reports) + [written.value];
    }

    method ApplyRetention(count: nat)
      modifies this`reports, this`deleted
      ensures State() == Drop(old(State()), count)
    {
      var swept := Min(|reports|, count);
      deleted := deleted + reports[..swept];
      reports := reports[swept..];
      assert deleted + reports == old(deleted + reports);
    }

    method RefreshStatus(after: Tick, actor: string, signals: Signals)
      modifies this`reports, this`clock
      ensures State() == Exec(config, old(State()), Event.RefreshStatus(after, actor, signals))
    {
      hide EscalateIfNeeded;
      clock := clock + after;
      SyncFromCurrentStatus(actor, signals);
    }

    method RecordFailure(after: Tick, actor: string, signals: Signals, refreshed: Signals)
      modifies this`reports, this`clock
      ensures State() == Exec(config, old(State()), Event.RecordFailure(after, actor, signals, refreshed))
    {
      hide EscalateIfNeeded;
      ghost var start := Tock(State(), after);
      clock := clock + after;
      assert State() == start;
      SyncFromCurrentStatus(actor, signals);
      assert State() == EscalateIfNeeded(config, start, actor, signals);
      SyncFromCurrentStatus(actor, refreshed);
    }

    method RecordAction(after: Tick, actor: string, kind: ActionKind, chosen: Option<string>, published: bool,
                        before: Signals, swept: nat, refreshed: Signals) returns (r: Result<Report, Refusal>)
      modifies this`reports, this`deleted, this`clock
      ensures State() == Exec(config, old(State()), Event.RecordAction(after, actor, kind, chosen, published, before, swept, refreshed))
      ensures r.Ok? <==> Accepts(config, old(State()), Event.RecordAction(after, actor, kind, chosen, published, before, swept, refreshed))
      ensures r.Refused? ==>
                reports == old(reports) && Guard(Evaluate(config, before, reports, WINDOW, clock), actor, kind, chosen, published) == Some(r.error)
      ensures r.Ok? ==> r.value.kind == kind && r.value.at == clock && r.value.actor == actor
      ensures r.Ok? ==> r.value.owner == Some(if kind in {Assigned, Transferred} && chosen.Some? then chosen.value else actor)
    {
      hide Evaluate, Guard, OperatorReport, EscalateIfNeeded, Judges;
      ghost var start := Tock(State(), after);
      clock := clock + after;
      assert State() == start && reports == start.Log();
      var status := Evaluate(config, before, reports, WINDOW, clock);
      var refusal := Guard(status, actor, kind, chosen, published);
      if refusal.Some? {
        return Refused(refusal.value);
      }
      var report := OperatorReport(status, actor, kind, chosen, clock);
      OperatorReportIsExactly(status, actor, kind, chosen, clock);
      Persist(report);
      ApplyRetention(swept);
      SyncFromCurrentStatus(actor, refreshed);
      return Ok(report);
    }
  }
}
