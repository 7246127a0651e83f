/**
 * Deriving the ownership window of one telemetry signal from its recorded samples: when the
 * current breach began, when the signal was last healthy and last recovered, how long it has been
 * in breach, and the compressed list of status transitions.
 */
module OwnershipSamples {
  import opened Basics

  datatype Sample = Sample(status: Health, at: int)

  datatype Window = Window(
    status: Health, breachStartedAt: Option<int>, lastHealthyAt: Option<int>, lastRecoveredAt: Option<int>,
    breachMinutes: Option<int>, latestSampleAt: Option<int>, sampleCount: nat)

  // ---------------------------------------------------------------------------------------------
  // Samples oldest first
  // ---------------------------------------------------------------------------------------------

  ghost predicate Chronological(samples: seq<Sample>) {
    forall i, j :: 0 <= i < j < |samples| ==> samples[i].at <= samples[j].at
  }

  ghost predicate DistinctTimes(samples: seq<Sample>) {
    forall i, j :: 0 <= i < j < |samples| ==> samples[i].at != samples[j].at
  }

  ghost predicate NotInFuture(samples: seq<Sample>, now: int) {
    forall s :: s in samples ==> s.at <= now
  }

  /** Insert behind every sample that is not newer: one step of a stable sort. */
  function Insert(sorted: seq<Sample>, s: Sample): seq<Sample> {
    if sorted == [] || sorted[|sorted| - 1].at <= s.at then sorted + [s]
    else Insert(sorted[..|sorted| - 1], s) + [sorted[|sorted| - 1]]
  }

  /** The stable oldest-first sort the derivation starts from. */
  function SortByTime(samples: seq<Sample>): seq<Sample> {
    if samples == [] then []
    else Insert(SortByTime(samples[..|samples| - 1]), samples[|samples| - 1])
  }

  lemma {:induction false} InsertKeepsSamples(sorted: seq<Sample>, s: Sample)
    ensures multiset(Insert(sorted, s)) == multiset(sorted) + multiset{s}
    ensures forall x :: x in Insert(sorted, s) ==> x in sorted || x == s
  {
    if sorted != [] && sorted[|sorted| - 1].at > s.at {
      assert sorted == sorted[..|sorted| - 1] + [sorted[|sorted| - 1]];
      InsertKeepsSamples(sorted[..|sorted| - 1], s);
    }
  }

  lemma {:induction false} InsertKeepsOrder(sorted: seq<Sample>, s: Sample)
    requires Chronological(sorted)
    ensures Chronological(Insert(sorted, s))
  {
    if sorted != [] && sorted[|sorted| - 1].at > s.at {
      var front, last := sorted[..|sorted| - 1], sorted[|sorted| - 1];
      InsertKeepsOrder(front, s);
      InsertKeepsSamples(front, s);
      assert forall x :: x in front ==> x.at <= last.at;
      forall i | 0 <= i < |Insert(front, s)| ensures Insert(front, s)[i].at <= last.at {
        assert Insert(front, s)[i] in Insert(front, s);
      }
    }
  }

  /** Whatever order the samples were read in, the sorted list is chronological and the same samples. */
  lemma {:induction false} SortIsChronological(samples: seq<Sample>)
    ensures Chronological(SortByTime(samples))
    ensures multiset(SortByTime(samples)) == multiset(samples)
  {
    if samples != [] {
      var front, last := samples[..|samples| - 1], samples[|samples| - 1];
      assert samples == front + [last];
      SortIsChronological(front);
      InsertKeepsOrder(SortByTime(front), last);
      InsertKeepsSamples(SortByTime(front), last);
    }
  }

  // ---------------------------------------------------------------------------------------------
  // Backward scans against forward folds
  // ---------------------------------------------------------------------------------------------

  /** Forward reading of the samples: a healthy sample clears the breach, the first bad one starts it. */
  function BreachFold(samples: seq<Sample>): Option<int> {
    if samples == [] then None
    else
      var last := samples[|samples| - 1];
      var before := BreachFold(samples[..|samples| - 1]);
      if last.status.Healthy? then None
      else if before.Some? then before
      else Some(last.at)
  }

  /** Forward reading: the time of the newest healthy sample. */
  function HealthyFold(samples: seq<Sample>): Option<int> {
    if samples == [] then None
    else
      var last := samples[|samples| - 1];
      if last.status.Healthy? then Some(last.at) else HealthyFold(samples[..|samples| - 1])
  }

  /** Forward reading: the time of the newest step from unhealthy to healthy. */
  function RecoveryFold(samples: seq<Sample>): Option<int> {
    if |samples| < 2 then None
    else
      var last, previous := samples[|samples| - 1], samples[|samples| - 2];
      if last.status.Healthy? && !previous.status.Healthy? then Some(last.at)
      else RecoveryFold(samples[..|samples| - 1])
  }

  predicate StaleHealthy(latest: Sample, staleAfter: int, now: int) {
    AgeMinutes(now, latest.at) > staleAfter && latest.status.Healthy?
  }

  /** Start of the current breach, counting a healthy but stale signal as breaching. */
  function BreachStart(samples: seq<Sample>, staleAfter: int, now: int): Option<int> {
    if samples != [] && StaleHealthy(samples[|samples| - 1], staleAfter, now)
    then Some(samples[|samples| - 1].at + staleAfter * MINUTE)
    else BreachFold(samples)
  }

  method FindMostRecentHealthySample(samples: seq<Sample>) returns (found: Option<Sample>)
    ensures found.Some? ==> found.value in samples && found.value.status.Healthy?
    ensures HealthyFold(samples) == if found.Some? then Some(found.value.at) else None
  {
    var index := |samples| - 1;
    assert samples[..index + 1] == samples;
    while index >= 0
      invariant -1 <= index < |samples|
      invariant HealthyFold(samples) == HealthyFold(samples[..index + 1])
    {
      assert samples[..index + 1][..index] == samples[..index];
      if samples[index].status.Healthy? {
        return Some(samples[index]);
      }
      index := index - 1;
    }
    return None;
  }

  /** If the samples past `index` are all unhealthy, the breach began with the first of them. */
  lemma {:induction false} BreachAfterHealthy(samples: seq<Sample>, index: int)
    requires -1 <= index < |samples|
    requires 0 <= index ==> samples[index].status.Healthy?
    requires forall i :: index < i < |samples| ==> !samples[i].status.Healthy?
    ensures BreachFold(samples) == if index + 1 < |samples| then Some(samples[index + 1].at) else None
    decreases |samples|
  {
    if index + 1 < |samples| {
      BreachAfterHealthy(samples[..|samples| - 1], index);
    }
  }

  method FindCurrentBreachStartedAt(samples: seq<Sample>, staleAfter: int, now: int) returns (started: Option<int>)
    ensures started == BreachStart(samples, staleAfter, now)
  {
    if |samples| == 0 {
      return None;
    }
    var latest := samples[|samples| - 1];
    if AgeMinutes(now, latest.at) > staleAfter && latest.status.Healthy? {
      return Some(latest.at + staleAfter * MINUTE);
    }
    var index := |samples| - 1;
    while index >= 0
      invariant -1 <= index < |samples|
      invariant forall i :: index < i < |samples| ==> !samples[i].status.Healthy?
    {
      if samples[index].status.Healthy? {
        BreachAfterHealthy(samples, index);
        return if index + 1 < |samples| then Some(samples[index + 1].at) else None;
      }
      index := index - 1;
    }
    BreachAfterHealthy(samples, -1);
    return Some(samples[0].at);
  }

  method FindLastRecoveredAt(samples: seq<Sample>) returns (recovered: Option<int>)
    ensures recovered == RecoveryFold(samples)
  {
    var index := |samples| - 1;
    assert samples[..index + 1] == samples;
    while index > 0
      invariant -1 <= index < |samples|
      invariant RecoveryFold(samples) == RecoveryFold(samples[..index + 1])
    {
      assert samples[..index + 1][..index] == samples[..index];
      if samples[index].status.Healthy? && !samples[index - 1].status.Healthy? {
        return Some(samples[index].at);
      }
      index := index - 1;
    }
    return None;
  }

  function CurrentStatus(samples: seq<Sample>, staleAfter: int, now: int): Health {
    if samples == [] then Critical
    else
      var latest := samples[|samples| - 1];
      if !StaleHealthy(latest, staleAfter, now) then latest.status
      else if AgeMinutes(now, latest.at) <= staleAfter * 2 then Warning
      else Critical
  }

  /**
   * The status of a signal, exactly: that of its newest sample, except that a healthy one that is
   * older than allowed counts as a warning, and beyond twice that age as critical.
   */
  lemma StatusIsExactly(samples: seq<Sample>, staleAfter: int, now: int)
    ensures samples == [] ==> CurrentStatus(samples, staleAfter, now) == Critical
    ensures samples != [] ==>
              var status, latest := CurrentStatus(samples, staleAfter, now), samples[|samples| - 1];
              var age := AgeMinutes(now, latest.at);
              && (status == Healthy <==> latest.status == Healthy && age <= staleAfter)
              && (status == Warning <==> latest.status == Warning || (latest.status == Healthy && staleAfter < age <= 2 * staleAfter))
              && (status == Critical <==> latest.status == Critical || (latest.status == Healthy && staleAfter < age && 2 * staleAfter < age))
  {
    if samples != [] {
      match samples[|samples| - 1].status
      case Healthy =>
      case Warning =>
      case Critical =>
    }
  }

  /** When the breach began, exactly: when a healthy signal went stale, or with the first sample after the newest healthy one. */
  lemma BreachStartIsExactly(samples: seq<Sample>, staleAfter: int, now: int)
    requires samples != []
    ensures var latest, start := samples[|samples| - 1], BreachStart(samples, staleAfter, now);
            if latest.status == Healthy then
              start == if staleAfter < AgeMinutes(now, latest.at) then Some(latest.at + 60000 * staleAfter) else None
            else
              exists i :: 0 <= i < |samples| && start == Some(samples[i].at)
                          && (forall k :: i <= k < |samples| ==> samples[k].status != Healthy)
                          && (i == 0 || samples[i - 1].status == Healthy)
  {
    var index := |samples| - 1;
    if samples[index].status != Healthy {
      while 0 < index && samples[index - 1].status != Healthy
        invariant 0 <= index < |samples|
        invariant forall k :: index <= k < |samples| ==> samples[k].status != Healthy
      {
        index := index - 1;
      }
      BreachAfterHealthy(samples, index - 1);
    }
  }

  method DeriveOwnershipRecord(samples: seq<Sample>, staleAfter: int, now: int) returns (window: Window)
    ensures window.status == CurrentStatus(samples, staleAfter, now)
    ensures window.sampleCount == |samples|
    ensures samples == [] ==> window == Window(Critical, None, None, None, None, None, 0)
    ensures samples != [] ==>
      && window.breachStartedAt == (if window.status.Healthy? then None else BreachStart(samples, staleAfter, now))
      && window.lastHealthyAt == HealthyFold(samples)
      && window.lastRecoveredAt == RecoveryFold(samples)
      && window.breachMinutes == (if window.breachStartedAt.Some? then Some(AgeMinutes(now, window.breachStartedAt.value)) else None)
      && window.latestSampleAt == Some(samples[|samples| - 1].at)
  {
    if |samples| == 0 {
      return Window(Critical, None, None, None, None, None, 0);
    }
    var status := CurrentStatus(samples, staleAfter, now);
    var healthy := FindMostRecentHealthySample(samples);
    var started := None;
    if !status.Healthy? {
      started := FindCurrentBreachStartedAt(samples, staleAfter, now);
    }
    var recovered := FindLastRecoveredAt(samples);
    return Window(status, started,
                  if healthy.Some? then Some(healthy.value.at) else None,
                  recovered,
                  if started.Some? then Some(AgeMinutes(now, started.value)) else None,
                  Some(samples[|samples| - 1].at), |samples|);
  }

  // ---------------------------------------------------------------------------------------------
  // What the derived window means
  // ---------------------------------------------------------------------------------------------

  lemma {:induction false} FoldsAreOrdered(samples: seq<Sample>)
    requires Chronological(samples)
    ensures var b, h, r := BreachFold(samples), HealthyFold(samples), RecoveryFold(samples);
            && (r.Some? ==> h.Some? && r.value <= h.value)
            && (h.Some? && b.Some? ==> h.value <= b.value)
            && (h.Some? ==> exists s :: s in samples && s.at == h.value)
            && (b.Some? ==> exists s :: s in samples && s.at == b.value)
  {
    if samples != [] {
      var front, last := samples[..|samples| - 1], samples[|samples| - 1];
      FoldsAreOrdered(front);
      assert forall s :: s in front ==> s in samples;
      assert last in samples;
      assert forall s :: s in front ==> s.at <= last.at;
    }
  }

  lemma BreachFoldIsNoneExactlyWhenHealthy(samples: seq<Sample>)
    requires samples != []
    ensures BreachFold(samples).None? <==> samples[|samples| - 1].status.Healthy?
  {
  }

  /**
   * For every non-empty list of samples, in whatever order they were read, and whole-minute
   * thresholds: there is a breach start exactly when the signal is not currently healthy, and
   * last recovery, last healthy sample, breach start and now follow each other in time.
   */
  lemma WindowIsConsistent(samples: seq<Sample>, staleAfter: int, now: int)
    requires samples != [] && NotInFuture(samples, now) && 1 <= staleAfter
    ensures var sorted := SortByTime(samples);
            var started := BreachStart(sorted, staleAfter, now);
            var healthy, recovered := HealthyFold(sorted), RecoveryFold(sorted);
            && (started.None? <==> CurrentStatus(sorted, staleAfter, now).Healthy?)
            && (recovered.Some? ==> healthy.Some? && recovered.value <= healthy.value)
            && (healthy.Some? && started.Some? ==> healthy.value <= started.value)
            && (healthy.Some? ==> healthy.value <= now)
            && (started.Some? ==> started.value <= now)
  {
    var sorted := SortByTime(samples);
    SortIsChronological(samples);
    assert |sorted| == |multiset(sorted)| == |multiset(samples)| == |samples|;
    forall s | s in sorted ensures s.at <= now {
      assert s in multiset(sorted);
      assert s in multiset(samples);
    }
    FoldsAreOrdered(sorted);
    BreachFoldIsNoneExactlyWhenHealthy(sorted);
    var latest := sorted[|sorted| - 1];
    assert latest in sorted;
    if StaleHealthy(latest, staleAfter, now) {
      StaleBreachIsInThePast(latest.at, staleAfter, now);
    }
  }

  lemma StaleBreachIsInThePast(at: int, staleAfter: int, now: int)
    requires 1 <= staleAfter < AgeMinutes(now, at)
    ensures at + staleAfter * MINUTE < now
  {
  }

  /**
   * The minutes shown for a stale-healthy breach are exactly the age beyond the threshold: moving
   * the start by whole minutes commutes with the rounding.
   */
  lemma StaleBreachMinutes(samples: seq<Sample>, staleAfter: int, now: int)
    requires samples != [] && 1 <= staleAfter && StaleHealthy(samples[|samples| - 1], staleAfter, now)
    ensures var started := BreachStart(samples, staleAfter, now);
            && started.Some?
            && AgeMinutes(now, started.value) == AgeMinutes(now, samples[|samples| - 1].at) - staleAfter
  {
    var at := samples[|samples| - 1].at;
    var elapsed := now - at + MINUTE / 2;
    assert (elapsed - staleAfter * MINUTE) / MINUTE == elapsed / MINUTE - staleAfter;
  }

  /**
   * Reading one more sample updates the derived times as an incremental observer would: a healthy
   * sample ends the breach and counts as a recovery exactly when a breach was running.
   */
  lemma RecoveriesEndBreaches(samples: seq<Sample>, s: Sample)
    ensures var longer := samples + [s];
            && BreachFold(longer) == (if s.status.Healthy? then None
                                      else if BreachFold(samples).Some? then BreachFold(samples) else Some(s.at))
            && HealthyFold(longer) == (if s.status.Healthy? then Some(s.at) else HealthyFold(samples))
            && RecoveryFold(longer) == (if s.status.Healthy? && BreachFold(samples).Some? then Some(s.at) else RecoveryFold(samples))
  {
    var longer := samples + [s];
    assert longer[..|longer| - 1] == samples;
    if samples != [] {
      BreachFoldIsNoneExactlyWhenHealthy(samples);
      assert longer[|longer| - 2] == samples[|samples| - 1];
    }
  }

  // ---------------------------------------------------------------------------------------------
  // Trend compression
  // ---------------------------------------------------------------------------------------------

  /** The samples at which the status changes, the first one included. */
  function Transitions(samples: seq<Sample>): (transitions: seq<Sample>)
    ensures transitions == [] <==> samples == []
  {
    if samples == [] then []
    else
      var before := Transitions(samples[..|samples| - 1]);
      if |samples| == 1 || samples[|samples| - 2].status != samples[|samples| - 1].status
      then before + [samples[|samples| - 1]]
      else before
  }

  /** The trend the operator sees keeps the newest six transitions. */
  function Trend(samples: seq<Sample>): seq<Sample> {
    var transitions := Transitions(samples);
    if |transitions| <= 6 then transitions else transitions[|transitions| - 6..]
  }

  /** Status at an instant according to a transition list: that of the last transition not after it. */
  function StatusAt(transitions: seq<Sample>, at: int): Option<Health> {
    if transitions == [] then None
    else if transitions[|transitions| - 1].at <= at then Some(transitions[|transitions| - 1].status)
    else StatusAt(transitions[..|transitions| - 1], at)
  }

  lemma {:induction false} TransitionsAlternate(samples: seq<Sample>)
    ensures var t := Transitions(samples);
            && (forall i :: 0 < i < |t| ==> t[i - 1].status != t[i].status)
            && (t != [] ==> t[|t| - 1].status == samples[|samples| - 1].status)
            && (forall s :: s in t ==> s in samples)
  {
    if samples != [] {
      TransitionsAlternate(samples[..|samples| - 1]);
    }
  }

  /**
   * The transition list is a faithful compression: for samples at distinct times, the status of
   * every sample can be read back from it.
   */
  lemma {:induction false} TransitionsAreFaithful(samples: seq<Sample>, index: nat)
    requires Chronological(samples) && DistinctTimes(samples) && index < |samples|
    ensures StatusAt(Transitions(samples), samples[index].at) == Some(samples[index].status)
    decreases |samples|
  {
    var front, last := samples[..|samples| - 1], samples[|samples| - 1];
    var before, t := Transitions(front), Transitions(samples);
    TransitionsAlternate(front);
    TransitionsAlternate(samples);
    if index < |front| {
      TransitionsAreFaithful(front, index);
      assert front[index] == samples[index] && samples[index].at < last.at;
      if t != before {
        assert t[..|t| - 1] == before;
      }
    } else {
      assert t[|t| - 1] in samples;
      assert forall s :: s in samples ==> s.at <= last.at;
    }
  }

  lemma {:induction false} StatusAtOfSuffix(transitions: seq<Sample>, from: nat, at: int)
    requires from < |transitions| && transitions[from].at <= at
    ensures StatusAt(transitions[from..], at) == StatusAt(transitions, at)
    decreases |transitions|
  {
    var last := transitions[|transitions| - 1];
    assert transitions[from..][|transitions| - from - 1] == last;
    if last.at > at {
      assert transitions[from..][..|transitions| - from - 1] == transitions[..|transitions| - 1][from..];
      StatusAtOfSuffix(transitions[..|transitions| - 1], from, at);
    }
  }

  /** The six transitions shown still give the status of every sample since the first of them. */
  lemma TrendIsFaithful(samples: seq<Sample>, index: nat)
    requires Chronological(samples) && DistinctTimes(samples) && index < |samples|
    requires Trend(samples)[0].at <= samples[index].at
    ensures StatusAt(Trend(samples), samples[index].at) == Some(samples[index].status)
  {
    TransitionsAreFaithful(samples, index);
    var t := Transitions(samples);
    if |t| > 6 {
      StatusAtOfSuffix(t, |t| - 6, samples[index].at);
    }
  }
}
