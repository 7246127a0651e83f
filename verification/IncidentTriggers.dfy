/**
 * Incident triggers: reconciling the trigger table of one environment against the alerts that
 * currently reach the severity threshold, with notifications, audit events and a retention sweep.
 */
module IncidentTriggers {
  import opened Basics
  import opened Labels

  /** Environment names are plain words: local, development, staging, production. */
  type Environment = s: string | ColonFree(s) witness ""

  datatype TriggerStatus = Active | Resolved

  datatype Trigger = Trigger(environment: Environment, status: TriggerStatus, resolvedAt: Option<int>)

  datatype AuditKind = Triggered | Cleared

  datatype AuditEvent = AuditEvent(key: string, kind: AuditKind)

  /** Triggers and notifications by dedupe key, for all environments together, and the audit trail. */
  datatype Tables = Tables(triggers: map<string, Trigger>, unread: map<string, bool>, audit: seq<AuditEvent>)

  const EMPTY := Tables(map[], map[], [])

  function DedupeKey(environment: Environment, alertId: string): string {
    environment + ":" + alertId
  }

  lemma DedupeKeyIsInjective(e: Environment, a: string, f: Environment, b: string)
    requires DedupeKey(e, a) == DedupeKey(f, b)
    ensures e == f && a == b
  {
    FirstColonSplits(e, a, f, b);
  }

  datatype Severity = Critical | Warning | Info

  datatype Alert = Alert(id: string, severity: Severity)

  function Rank(severity: Severity): nat {
    match severity
    case Critical => 0
    case Warning => 1
    case Info => 2
  }

  /** A threshold of info takes all alerts, one of warning all but info, one of critical only critical ones. */
  predicate Reaches(severity: Severity, minimum: Severity) {
    minimum == Info || (minimum == Severity.Warning && severity != Info) || (minimum == Severity.Critical && severity == Severity.Critical)
  }

  /** The alerts at least as severe as the threshold, in order. */
  function Select(alerts: seq<Alert>, minimum: Severity): (selected: seq<Alert>)
    ensures forall a :: a in selected <==> a in alerts && Reaches(a.severity, minimum)
  {
    if alerts == [] then []
    else
      var rest := Select(alerts[1..], minimum);
      if Rank(alerts[0].severity) <= Rank(minimum) then [alerts[0]] + rest else rest
  }

  /** Critical alerts reach every threshold, and a lower threshold takes no alert away. */
  lemma LowerThresholdsSelectMore(alerts: seq<Alert>, minimum: Severity, a: Alert)
    ensures a in alerts && a.severity == Severity.Critical ==> a in Select(alerts, minimum)
    ensures a in Select(alerts, Severity.Critical) ==> a in Select(alerts, Severity.Warning)
    ensures a in Select(alerts, Severity.Warning) ==> a in Select(alerts, Info)
    ensures a in Select(alerts, Info) <==> a in alerts
  {
  }

  ghost predicate DistinctIds(alerts: seq<Alert>) {
    forall i, j :: 0 <= i < j < |alerts| ==> alerts[i].id != alerts[j].id
  }

  lemma {:induction false} SelectKeepsDistinct(alerts: seq<Alert>, minimum: Severity)
    requires DistinctIds(alerts)
    ensures DistinctIds(Select(alerts, minimum))
  {
    if alerts != [] {
      SelectKeepsDistinct(alerts[1..], minimum);
      var rest := Select(alerts[1..], minimum);
      forall i | 0 <= i < |rest| ensures rest[i].id != alerts[0].id {
        assert rest[i] in rest;
      }
    }
  }

  function Keys(environment: Environment, alerts: seq<Alert>): (keys: set<string>)
    ensures forall key :: key in keys <==> exists i :: 0 <= i < |alerts| && key == DedupeKey(environment, alerts[i].id)
  {
    set i | 0 <= i < |alerts| :: DedupeKey(environment, alerts[i].id)
  }

  lemma SelectedKeys(environment: Environment, alerts: seq<Alert>, minimum: Severity)
    ensures forall key :: key in Keys(environment, Select(alerts, minimum)) <==>
              exists i :: 0 <= i < |alerts| && Reaches(alerts[i].severity, minimum) && key == DedupeKey(environment, alerts[i].id)
  {
    var selected := Select(alerts, minimum);
    forall key
      ensures key in Keys(environment, selected) <==>
                exists i :: 0 <= i < |alerts| && Reaches(alerts[i].severity, minimum) && key == DedupeKey(environment, alerts[i].id)
    {
      if key in Keys(environment, selected) {
        var k :| 0 <= k < |selected| && key == DedupeKey(environment, selected[k].id);
        assert selected[k] in selected;
      }
      if i :| 0 <= i < |alerts| && Reaches(alerts[i].severity, minimum) && key == DedupeKey(environment, alerts[i].id) {
        assert alerts[i] in selected;
      }
    }
  }

  predicate IsActive(t: Tables, key: string) {
    key in t.triggers && t.triggers[key].status.Active?
  }

  /** The active triggers recorded for an environment. */
  function ActiveKeys(t: Tables, environment: Environment): set<string> {
    set key | key in t.triggers && t.triggers[key].environment == environment && t.triggers[key].status.Active?
  }

  // ---------------------------------------------------------------------------------------------
  // The invariant of the tables
  // ---------------------------------------------------------------------------------------------

  /** The audit events of one key. */
  function Trail(audit: seq<AuditEvent>, key: string): seq<AuditKind> {
    if audit == [] then []
    else
      var before := Trail(audit[..|audit| - 1], key);
      if audit[|audit| - 1].key == key then before + [audit[|audit| - 1].kind] else before
  }

  /** Triggered and cleared strictly alternate, beginning with triggered. */
  ghost predicate Alternates(trail: seq<AuditKind>) {
    forall i :: 0 <= i < |trail| ==> trail[i] == if i % 2 == 0 then Triggered else Cleared
  }

  /** A trigger is filed under a key of its own environment. */
  ghost predicate WellFiled(triggers: map<string, Trigger>) {
    forall key :: key in triggers ==> exists id :: key == DedupeKey(triggers[key].environment, id)
  }

  ghost predicate KeyInv(t: Tables, key: string) {
    && (IsActive(t, key) <==> key in t.unread && t.unread[key])
    && Alternates(Trail(t.audit, key))
    && (IsActive(t, key) <==> |Trail(t.audit, key)| % 2 == 1)
  }

  /**
   * A trigger is active exactly while its notification is unread, and exactly while its audit
   * trail, which alternates, has "triggered" last.
   */
  ghost predicate Inv(t: Tables) {
    && WellFiled(t.triggers)
    && forall key: string :: KeyInv(t, key)
  }

  lemma TrailGrows(audit: seq<AuditEvent>, event: AuditEvent, key: string)
    ensures Trail(audit + [event], key) == if event.key == key then Trail(audit, key) + [event.kind] else Trail(audit, key)
  {
    assert (audit + [event])[..|audit|] == audit;
  }

  /** Keys of an environment are only ever used for triggers of that environment. */
  lemma KeyKeepsEnvironment(t: Tables, environment: Environment, id: string)
    requires WellFiled(t.triggers)
    ensures var key := DedupeKey(environment, id);
            key in t.triggers ==> t.triggers[key].environment == environment
  {
    var key := DedupeKey(environment, id);
    if key in t.triggers {
      var other :| key == DedupeKey(t.triggers[key].environment, other);
      DedupeKeyIsInjective(environment, id, t.triggers[key].environment, other);
    }
  }

  // ---------------------------------------------------------------------------------------------
  // Syncs and sweeps as relations between tables
  // ---------------------------------------------------------------------------------------------

  ghost predicate SameRows(before: Tables, after: Tables, environment: Environment) {
    forall key: string ::
      && (key in before.triggers && before.triggers[key].environment != environment ==>
            key in after.triggers && after.triggers[key] == before.triggers[key])
      && (key in after.triggers && after.triggers[key].environment != environment ==>
            key in before.triggers && before.triggers[key] == after.triggers[key])
  }

  /** A key whose activity did not change is neither notified nor audited; a change is both. */
  ghost predicate Recorded(before: Tables, after: Tables, key: string) {
    if IsActive(before, key) == IsActive(after, key) then
      && (key in before.unread <==> key in after.unread)
      && (key in before.unread ==> after.unread[key] == before.unread[key])
      && Trail(after.audit, key) == Trail(before.audit, key)
    else
      && key in after.unread && after.unread[key] == IsActive(after, key)
      && Trail(after.audit, key) == Trail(before.audit, key) + [if IsActive(after, key) then Triggered else Cleared]
  }

  /**
   * The active triggers of `environment` become exactly `active`; every change is recorded, nothing
   * else is, and the rows of other environments stay as they are.
   */
  ghost predicate Moved(before: Tables, environment: Environment, active: set<string>, after: Tables) {
    && WellFiled(after.triggers)
    && ActiveKeys(after, environment) == active
    && SameRows(before, after, environment)
    && forall key: string :: Recorded(before, after, key)
  }

  /** One sync before its closing sweep. */
  ghost predicate Synced(before: Tables, environment: Environment, selected: seq<Alert>, after: Tables) {
    Moved(before, environment, Keys(environment, selected), after)
  }

  /** Retention deletes triggers resolved before the cutoff, whichever environment they belong to. */
  predicate Expired(trigger: Trigger, cutoff: int) {
    trigger.status.Resolved? && trigger.resolvedAt.Some? && trigger.resolvedAt.value < cutoff
  }

  function Swept(t: Tables, cutoff: int): Tables {
    t.(triggers := map key | key in t.triggers && !Expired(t.triggers[key], cutoff) :: t.triggers[key])
  }

  datatype Event =
    | Sync(environment: Environment, alerts: seq<Alert>, minimum: Severity, cutoff: int)
    | Sweep(cutoff: int)

  ghost predicate Step(before: Tables, e: Event, after: Tables) {
    match e
    case Sweep(cutoff) => after == Swept(before, cutoff)
    case Sync(environment, alerts, minimum, cutoff) =>
      exists reconciled: Tables ::
        Synced(before, environment, Select(alerts, minimum), reconciled) && after == Swept(reconciled, cutoff)
  }

  ghost predicate IsRun(states: seq<Tables>, events: seq<Event>) {
    && |states| == |events| + 1
    && forall i :: 0 <= i < |events| ==> Step(states[i], events[i], states[i + 1])
  }

  lemma MoveKeepsInv(before: Tables, environment: Environment, active: set<string>, after: Tables)
    requires Inv(before) && Moved(before, environment, active, after)
    ensures Inv(after)
  {
    forall key: string ensures KeyInv(after, key) {
      assert KeyInv(before, key) && Recorded(before, after, key);
    }
  }

  lemma SweepKeepsInv(t: Tables, cutoff: int)
    requires Inv(t)
    ensures Inv(Swept(t, cutoff))
  {
    forall key: string ensures KeyInv(Swept(t, cutoff), key) {
      assert KeyInv(t, key);
    }
  }

  /** Retention deletes exactly the resolved triggers dated before the cutoff. */
  lemma SweepDeletesExactly(t: Tables, cutoff: int, key: string)
    ensures var after := Swept(t, cutoff);
            && after.unread == t.unread && after.audit == t.audit
            && (key in after.triggers ==> key in t.triggers && after.triggers[key] == t.triggers[key])
            && (key in t.triggers && key !in after.triggers <==>
                  && key in t.triggers && t.triggers[key].status == Resolved
                  && exists at :: t.triggers[key].resolvedAt == Some(at) && at <= cutoff - 1)
  {
  }

  /** Retention never deletes an active trigger. */
  lemma SweepKeepsActive(t: Tables, cutoff: int, environment: Environment)
    ensures ActiveKeys(Swept(t, cutoff), environment) == ActiveKeys(t, environment)
  {
  }

  /**
   * Over all runs of syncs, for any environments, and sweeps: a trigger is active exactly while its
   * notification is unread, and its audit events alternate, triggered first.
   */
  lemma {:induction false} RunsKeepInv(states: seq<Tables>, events: seq<Event>)
    requires IsRun(states, events) && states[0] == EMPTY
    ensures Inv(states[|events|])
    decreases |events|
  {
    if events != [] {
      RunsKeepInv(states[..|events|], events[..|events| - 1]);
      var before, after := states[|events| - 1], states[|events|];
      assert Step(before, events[|events| - 1], after);
      match events[|events| - 1]
      case Sweep(cutoff) => SweepKeepsInv(before, cutoff);
      case Sync(environment, alerts, minimum, cutoff) =>
        var reconciled: Tables :| Synced(before, environment, Select(alerts, minimum), reconciled) && after == Swept(reconciled, cutoff);
        MoveKeepsInv(before, environment, Keys(environment, Select(alerts, minimum)), reconciled);
        SweepKeepsInv(reconciled, cutoff);
    }
  }

  /** Repeating a sync changes no activity, notifies nobody and leaves every audit trail alone. */
  lemma RepeatedSyncIsQuiet(before: Tables, environment: Environment, selected: seq<Alert>, after: Tables, cutoff: int, again: Tables)
    requires Inv(before)
    requires Synced(before, environment, selected, after)
    requires Synced(Swept(after, cutoff), environment, selected, again)
    ensures again.unread == after.unread
    ensures forall key: string :: IsActive(again, key) == IsActive(after, key) && Trail(again.audit, key) == Trail(after.audit, key)
    ensures Keys(environment, selected) - ActiveKeys(Swept(after, cutoff), environment) == {}
    ensures ActiveKeys(Swept(after, cutoff), environment) - Keys(environment, selected) == {}
  {
    SweepKeepsActive(after, cutoff, environment);
    MoveKeepsInv(before, environment, Keys(environment, selected), after);
    SweepKeepsInv(after, cutoff);
    var swept := Swept(after, cutoff);
    forall key: string
      ensures IsActive(again, key) == IsActive(after, key)
      ensures Trail(again.audit, key) == Trail(after.audit, key)
      ensures key in again.unread <==> key in after.unread
      ensures key in after.unread ==> again.unread[key] == after.unread[key]
    {
      assert IsActive(swept, key) == IsActive(after, key);
      assert key in ActiveKeys(again, environment) <==> key in ActiveKeys(swept, environment);
      assert Recorded(swept, again, key);
    }
    assert again.unread.Keys == after.unread.Keys;
  }

  /** The active count moves by exactly what a sync reports as created less what it reports as resolved. */
  lemma ActiveCountBalances(before: set<string>, wanted: set<string>)
    ensures |wanted| == |before| + |wanted - before| - |before - wanted|
  {
    assert wanted == (wanted * before) + (wanted - before);
    assert before == (wanted * before) + (before - wanted);
  }

  // ---------------------------------------------------------------------------------------------
  // Elementary updates
  // ---------------------------------------------------------------------------------------------

  /** Raise the trigger of one alert; notify and audit only when it was not active already. */
  function Raise(t: Tables, environment: Environment, key: string, wasActive: bool): Tables {
    var triggers := t.triggers[key := Trigger(environment, Active, None)];
    if wasActive then t.(triggers := triggers)
    else Tables(triggers, t.unread[key := true], t.audit + [AuditEvent(key, Triggered)])
  }

  /** Resolve an active trigger whose alert is gone. */
  function Clear(t: Tables, key: string, now: int): Tables
    requires key in t.triggers
  {
    Tables(t.triggers[key := t.triggers[key].(status := Resolved, resolvedAt := Some(now))],
           t.unread[key := false], t.audit + [AuditEvent(key, Cleared)])
  }

  lemma RaiseRows(t: Tables, environment: Environment, id: string, wasActive: bool)
    requires WellFiled(t.triggers)
    ensures var key := DedupeKey(environment, id);
            var after := Raise(t, environment, key, wasActive);
            && WellFiled(after.triggers)
            && ActiveKeys(after, environment) == ActiveKeys(t, environment) + {key}
            && SameRows(t, after, environment)
  {
    var key := DedupeKey(environment, id);
    KeyKeepsEnvironment(t, environment, id);
    var after := Raise(t, environment, key, wasActive);
    forall other | other in after.triggers ensures exists i :: other == DedupeKey(after.triggers[other].environment, i) {
      assert other != key ==> other in t.triggers;
    }
  }

  lemma RaiseRecords(before: Tables, t: Tables, environment: Environment, key: string, other: string)
    requires Recorded(before, t, other) && IsActive(t, key) == IsActive(before, key)
    ensures Recorded(before, Raise(t, environment, key, IsActive(before, key)), other)
  {
    assert Recorded(before, t, other);
    TrailGrows(t.audit, AuditEvent(key, Triggered), other);
  }

  lemma RaiseMoves(before: Tables, t: Tables, environment: Environment, active: set<string>, id: string)
    requires Moved(before, environment, active, t)
    requires var key := DedupeKey(environment, id); key in active <==> IsActive(before, key)
    ensures var key := DedupeKey(environment, id);
            Moved(before, environment, active + {key}, Raise(t, environment, key, IsActive(before, key)))
  {
    var key := DedupeKey(environment, id);
    KeyKeepsEnvironment(t, environment, id);
    RaiseRows(t, environment, id, IsActive(before, key));
    assert key in ActiveKeys(t, environment) <==> key in active;
    var after := Raise(t, environment, key, IsActive(before, key));
    forall other: string ensures Recorded(before, after, other) {
      assert Recorded(before, t, other);
      RaiseRecords(before, t, environment, key, other);
    }
    SameRowsCompose(before, t, after, environment);
  }

  lemma SameRowsCompose(before: Tables, t: Tables, after: Tables, environment: Environment)
    requires SameRows(before, t, environment) && SameRows(t, after, environment)
    ensures SameRows(before, after, environment)
  {
  }

  lemma ClearMoves(before: Tables, t: Tables, environment: Environment, active: set<string>, key: string, now: int)
    requires WellFiled(before.triggers) && Moved(before, environment, active, t)
    requires key in active && key in ActiveKeys(before, environment)
    ensures key in t.triggers
    ensures Moved(before, environment, active - {key}, Clear(t, key, now))
  {
    var after := Clear(t, key, now);
    assert key in ActiveKeys(t, environment);
    forall other: string ensures Recorded(before, after, other) {
      assert Recorded(before, t, other);
      TrailGrows(t.audit, AuditEvent(key, Cleared), other);
    }
    forall other | other in after.triggers ensures exists i :: other == DedupeKey(after.triggers[other].environment, i) {
      assert other in t.triggers && after.triggers[other].environment == t.triggers[other].environment;
    }
  }

  lemma SnapshotTellsActivity(t: Tables, environment: Environment, id: string)
    requires WellFiled(t.triggers)
    ensures var key := DedupeKey(environment, id);
            var existing := map k | k in t.triggers && t.triggers[k].environment == environment :: t.triggers[k];
            && ((key in existing && existing[key].status.Active?) <==> IsActive(t, key))
            && (IsActive(t, key) <==> key in ActiveKeys(t, environment))
  {
    KeyKeepsEnvironment(t, environment, id);
  }

  lemma CountOneMore(active: set<string>, already: set<string>, key: string)
    requires key !in active
    ensures already + (active + {key}) == already + active + {key}
    ensures |active + {key} - already| == |active - already| + if key in already then 0 else 1
  {
    if key in already {
      assert active + {key} - already == active - already;
    } else {
      assert active + {key} - already == (active - already) + {key};
    }
  }

  /** What is still active when the keys in `todo` have not been looked at yet. */
  ghost function Remaining(activeKeys: set<string>, missing: set<string>, todo: set<string>): set<string> {
    activeKeys + missing * todo
  }

  lemma VisitOne(activeKeys: set<string>, missing: set<string>, todo: set<string>, key: string)
    requires key in todo && missing !! activeKeys
    ensures Remaining(activeKeys, missing, todo - {key}) ==
            if key in missing then Remaining(activeKeys, missing, todo) - {key} else Remaining(activeKeys, missing, todo)
    ensures |missing - (todo - {key})| == |missing - todo| + if key in missing then 1 else 0
    ensures key in missing ==> key in Remaining(activeKeys, missing, todo)
  {
    if key in missing {
      assert missing - (todo - {key}) == missing - todo + {key};
    } else {
      assert missing - (todo - {key}) == missing - todo;
    }
  }

  lemma NothingVisited(already: set<string>, activeKeys: set<string>, todo: set<string>)
    requires already <= todo
    ensures Remaining(activeKeys, already - activeKeys, todo) == already + activeKeys
    ensures already - activeKeys - todo == {}
  {
  }

  lemma AllVisited(activeKeys: set<string>, missing: set<string>)
    ensures Remaining(activeKeys, missing, {}) == activeKeys
    ensures missing - {} == missing
  {
  }

  lemma NextKeyIsNew(environment: Environment, selected: seq<Alert>, i: nat)
    requires DistinctIds(selected) && i < |selected|
    ensures DedupeKey(environment, selected[i].id) !in Keys(environment, selected[..i])
    ensures Keys(environment, selected[..i + 1]) == Keys(environment, selected[..i]) + {DedupeKey(environment, selected[i].id)}
  {
    var key := DedupeKey(environment, selected[i].id);
    if key in Keys(environment, selected[..i]) {
      var j :| 0 <= j < i && key == DedupeKey(environment, selected[..i][j].id);
      DedupeKeyIsInjective(environment, selected[i].id, environment, selected[j].id);
    }
    forall other ensures other in Keys(environment, selected[..i + 1]) <==> other in Keys(environment, selected[..i]) + {key} {
      if other in Keys(environment, selected[..i + 1]) {
        var j :| 0 <= j < i + 1 && other == DedupeKey(environment, selected[..i + 1][j].id);
        assert j < i ==> selected[..i][j] == selected[..i + 1][j];
      }
      if other in Keys(environment, selected[..i]) {
        var j :| 0 <= j < i && other == DedupeKey(environment, selected[..i][j].id);
        assert selected[..i + 1][j] == selected[..i][j];
      }
      assert selected[..i + 1][i] == selected[i];
    }
  }

  /** Exactly the rows under `keys` were written, all of them as `row`. */
  ghost predicate Wrote(before: map<string, Trigger>, after: map<string, Trigger>, keys: set<string>, row: Trigger) {
    && after.Keys == before.Keys + keys
    && forall key :: key in after ==> after[key] == if key in keys then row else before[key]
  }

  lemma MovedNothing(t: Tables, environment: Environment)
    requires WellFiled(t.triggers)
    ensures Moved(t, environment, ActiveKeys(t, environment), t)
  {
  }

  lemma WroteNothing(before: map<string, Trigger>, row: Trigger)
    ensures Wrote(before, before, {}, row)
  {
  }

  lemma WroteOneMore(before: map<string, Trigger>, now: map<string, Trigger>, keys: set<string>, key: string, row: Trigger)
    requires Wrote(before, now, keys, row)
    ensures Wrote(before, now[key := row], keys + {key}, row)
  {
  }

  /** What the first pass has done after raising these alerts. */
  ghost predicate RaisedSoFar(before: Tables, environment: Environment, raised: seq<Alert>, now: Tables, activeKeys: set<string>, created: int) {
    && activeKeys == Keys(environment, raised)
    && Moved(before, environment, ActiveKeys(before, environment) + activeKeys, now)
    && created == |activeKeys - ActiveKeys(before, environment)|
    && Wrote(before.triggers, now.triggers, activeKeys, Trigger(environment, Active, None))
  }

  lemma RaisedNone(before: Tables, environment: Environment, selected: seq<Alert>)
    requires WellFiled(before.triggers)
    ensures RaisedSoFar(before, environment, selected[..0], before, {}, 0)
  {
    MovedNothing(before, environment);
    WroteNothing(before.triggers, Trigger(environment, Active, None));
    assert ActiveKeys(before, environment) + {} == ActiveKeys(before, environment);
    hide Moved, Wrote;
  }

  lemma RaisedNext(before: Tables, environment: Environment, selected: seq<Alert>, i: nat, existing: map<string, Trigger>,
                   now: Tables, activeKeys: set<string>, created: int)
    requires WellFiled(before.triggers) && DistinctIds(selected) && i < |selected|
    requires existing == map key | key in before.triggers && before.triggers[key].environment == environment :: before.triggers[key]
    requires RaisedSoFar(before, environment, selected[..i], now, activeKeys, created)
    ensures var key := DedupeKey(environment, selected[i].id);
            var wasActive := key in existing && existing[key].status.Active?;
            RaisedSoFar(before, environment, selected[..i + 1], Raise(now, environment, key, wasActive), activeKeys + {key},
                        if wasActive then created else created + 1)
  {
    var key, already := DedupeKey(environment, selected[i].id), ActiveKeys(before, environment);
    NextKeyIsNew(environment, selected, i);
    SnapshotTellsActivity(before, environment, selected[i].id);
    hide Moved, Wrote, Keys, ActiveKeys, WellFiled;
    RaiseMoves(before, now, environment, already + activeKeys, selected[i].id);
    CountOneMore(activeKeys, already, key);
    WroteOneMore(before.triggers, now.triggers, activeKeys, key, Trigger(environment, Active, None));
  }

  lemma RaisedAll(before: Tables, environment: Environment, selected: seq<Alert>, now: Tables, activeKeys: set<string>, created: int)
    requires RaisedSoFar(before, environment, selected, now, activeKeys, created)
    ensures activeKeys == Keys(environment, selected)
    ensures Moved(before, environment, ActiveKeys(before, environment) + activeKeys, now)
    ensures created == |activeKeys - ActiveKeys(before, environment)|
    ensures Wrote(before.triggers, now.triggers, activeKeys, Trigger(environment, Active, None))
  {
    hide Moved, Wrote;
  }

  lemma WroteVisited(before: map<string, Trigger>, now: map<string, Trigger>, missing: set<string>, todo: set<string>, key: string, row: Trigger)
    requires Wrote(before, now, missing - todo, row) && key in todo
    ensures key in missing ==> Wrote(before, now[key := row], missing - (todo - {key}), row)
    ensures key !in missing ==> Wrote(before, now, missing - (todo - {key}), row)
  {
    if key in missing {
      assert missing - (todo - {key}) == missing - todo + {key};
    } else {
      assert missing - (todo - {key}) == missing - todo;
    }
  }

  // ---------------------------------------------------------------------------------------------
  // The tables, updated in place
  // ---------------------------------------------------------------------------------------------

  class IncidentStore {
    var triggers: map<string, Trigger>
    var unread: map<string, bool>
    var audit: seq<AuditEvent>

    ghost function State(): Tables
      reads this
    {
      Tables(triggers, unread, audit)
    }

    constructor ()
      ensures State() == EMPTY
    {
      triggers, unread, audit := map[], map[], [];
    }

    method ApplyRetention(cutoff: int)
      modifies this`triggers
      ensures State() == Swept(old(State()), cutoff)
      ensures old(WellFiled(triggers)) ==> WellFiled(triggers)
    {
      triggers := map key | key in triggers && !Expired(triggers[key], cutoff) :: triggers[key];
    }

    /** Body of the first pass. */
    method RaiseAlert(environment: Environment, key: string, wasActive: bool)
      modifies this
      ensures State() == Raise(old(State()), environment, key, wasActive)
    {
      triggers := triggers[key := Trigger(environment, Active, None)];
      if !wasActive {
        unread := unread[key := true];
        audit := audit + [AuditEvent(key, Triggered)];
      }
    }

    /** First pass: raise a trigger for every selected alert. */
    method RaiseSelected(environment: Environment, selected: seq<Alert>, existing: map<string, Trigger>)
      returns (activeKeys: set<string>, created: nat)
      requires WellFiled(triggers) && DistinctIds(selected)
      requires existing == map key | key in triggers && triggers[key].environment == environment :: triggers[key]
      modifies this
      ensures activeKeys == Keys(environment, selected)
      ensures Moved(old(State()), environment, ActiveKeys(old(State()), environment) + activeKeys, State())
      ensures created == |activeKeys - ActiveKeys(old(State()), environment)|
      ensures Wrote(old(triggers), triggers, activeKeys, Trigger(environment, Active, None))
    {
      hide RaisedSoFar, Raise, WellFiled, DistinctIds;
      ghost var before := State();
      activeKeys, created := {}, 0;
      RaisedNone(before, environment, selected);
      for i := 0 to |selected|
        invariant RaisedSoFar(before, environment, selected[..i], State(), activeKeys, created)
      {
        var key := DedupeKey(environment, selected[i].id);
        var wasActive := key in existing && existing[key].status.Active?;
        RaisedNext(before, environment, selected, i, existing, State(), activeKeys, created);
        RaiseAlert(environment, key, wasActive);
        activeKeys := activeKeys + {key};
        created := if wasActive then created else created + 1;
      }
      assert selected[..|selected|] == selected;
      RaisedAll(before, environment, selected, State(), activeKeys, created);
    }

    /** Body of the second pass. */
    method ClearTrigger(key: string, now: int)
      requires key in triggers
      modifies this
      ensures State() == Clear(old(State()), key, now)
    {
      triggers := triggers[key := triggers[key].(status := Resolved, resolvedAt := Some(now))];
      unread := unread[key := false];
      audit := audit + [AuditEvent(key, Cleared)];
    }

    /** Second pass: resolve the triggers that were active before and have no alert any more. */
    method ResolveMissing(ghost before: Tables, environment: Environment, existing: map<string, Trigger>, activeKeys: set<string>, now: int)
      returns (resolved: nat)
      requires WellFiled(before.triggers)
      requires forall key :: key in existing && existing[key].status.Active? <==> key in ActiveKeys(before, environment)
      requires Moved(before, environment, ActiveKeys(before, environment) + activeKeys, State())
      modifies this
      ensures Moved(before, environment, activeKeys, State())
      ensures resolved == |ActiveKeys(before, environment) - activeKeys|
      ensures Wrote(old(triggers), triggers, ActiveKeys(before, environment) - activeKeys, Trigger(environment, Resolved, Some(now)))
    {
      hide Wrote;
      ghost var missing := ActiveKeys(before, environment) - activeKeys;
      ghost var active := Remaining(activeKeys, missing, existing.Keys);
      resolved := 0;
      var todo := existing.Keys;
      NothingVisited(ActiveKeys(before, environment), activeKeys, todo);
      WroteNothing(triggers, Trigger(environment, Resolved, Some(now)));
      while todo != {}
        invariant todo <= existing.Keys
        invariant active == Remaining(activeKeys, missing, todo)
        invariant Moved(before, environment, active, State())
        invariant resolved == |missing - todo|
        invariant Wrote(old(triggers), triggers, missing - todo, Trigger(environment, Resolved, Some(now)))
        decreases todo
      {
        var key :| key in todo;
        VisitOne(activeKeys, missing, todo, key);
        WroteVisited(old(triggers), triggers, missing, todo, key, Trigger(environment, Resolved, Some(now)));
        if existing[key].status.Active? && key !in activeKeys {
          ClearMoves(before, State(), environment, active, key, now);
          assert triggers[key].environment == environment;
          ClearTrigger(key, now);
          active := active - {key};
          resolved := resolved + 1;
        }
        todo := todo - {key};
      }
      AllVisited(activeKeys, missing);
    }

    /** Make the active triggers of one environment match the alerts that reach the threshold. */
    method SyncTriggers(environment: Environment, alerts: seq<Alert>, minimum: Severity, now: int, cutoff: int)
      returns (created: nat, resolved: nat, active: nat)
      requires WellFiled(triggers) && DistinctIds(alerts)
      modifies this
      ensures WellFiled(triggers)
      ensures Step(old(State()), Sync(environment, alerts, minimum, cutoff), State())
      ensures ActiveKeys(State(), environment) == Keys(environment, Select(alerts, minimum))
      ensures forall key :: key in ActiveKeys(State(), environment) <==>
                exists i :: 0 <= i < |alerts| && Reaches(alerts[i].severity, minimum) && key == DedupeKey(environment, alerts[i].id)
      ensures forall key :: key in triggers ==>
                && (key in ActiveKeys(State(), environment) ==> triggers[key] == Trigger(environment, Active, None))
                && (key in ActiveKeys(old(State()), environment) - ActiveKeys(State(), environment) ==>
                      triggers[key] == Trigger(environment, Resolved, Some(now)))
                && (key !in ActiveKeys(State(), environment) + ActiveKeys(old(State()), environment) ==>
                      key in old(triggers) && triggers[key] == old(triggers)[key])
      ensures active == |ActiveKeys(State(), environment)|
      ensures active == |ActiveKeys(old(State()), environment)| + created - resolved
      ensures created == |ActiveKeys(State(), environment) - ActiveKeys(old(State()), environment)|
      ensures resolved == |ActiveKeys(old(State()), environment) - ActiveKeys(State(), environment)|
    {
      ghost var before := State();
      var selected := Select(alerts, minimum);
      SelectKeepsDistinct(alerts, minimum);
      var existing := map key | key in triggers && triggers[key].environment == environment :: triggers[key];
      var activeKeys;
      activeKeys, created := RaiseSelected(environment, selected, existing);
      resolved := ResolveMissing(before, environment, existing, activeKeys, now);
      ghost var reconciled := State();
      active := |set key | key in triggers && triggers[key].environment == environment && triggers[key].status.Active?|;
      ActiveCountBalances(ActiveKeys(before, environment), activeKeys);
      SelectedKeys(environment, alerts, minimum);
      ApplyRetention(cutoff);
      SweepKeepsActive(reconciled, cutoff, environment);
      assert Synced(before, environment, selected, reconciled) && State() == Swept(reconciled, cutoff);
    }
  }
}
