/**
 * The secret-rotation manifest: the validator that gates promotions, against a declarative
 * specification, and the rotation that produces such manifests.
 */
module SecretRotation {
  import opened Basics
  import opened Texts

  datatype Target = Development | Staging | Production

  /** A timestamp as parsed: None when the text is no date. */
  type Timestamp = Option<int>

  datatype Secret = Secret(key: string, rotatedAt: Timestamp)

  datatype Manifest = Manifest(
    version: int, environment: Target, rotatedBy: string, reason: string, generatedAt: Timestamp, secrets: seq<Secret>)

  datatype Issue =
    | WrongVersion | WrongEnvironment | NoOperator | NoReason
    | ManifestUndated | ManifestStale | NoSecrets
    | BlankKey | DuplicateKey(key: string) | SecretUndated(key: string) | SecretStale(key: string) | MissingKey(key: string)

  const HOUR: int := 3600000

  // ---------------------------------------------------------------------------------------------
  // Specification
  // ---------------------------------------------------------------------------------------------

  predicate Fresh(t: Timestamp, maxAgeHours: int, now: int) {
    t.Some? && now - t.value <= maxAgeHours * HOUR
  }

  predicate GoodKey(key: string) {
    |Trim(key)| >= 2
  }

  predicate HeaderFine(target: Target, m: Manifest, maxAgeHours: int, now: int) {
    && m.version == 1
    && m.environment == target
    && |Trim(m.rotatedBy)| >= 5
    && |Trim(m.reason)| >= 12
    && Fresh(m.generatedAt, maxAgeHours, now)
  }

  /** The entries among the first `count` are all fine and their keys are distinct. */
  ghost predicate EntriesFine(secrets: seq<Secret>, count: nat, maxAgeHours: int, now: int)
    requires count <= |secrets|
  {
    && (forall i :: 0 <= i < count ==> GoodKey(secrets[i].key) && Fresh(secrets[i].rotatedAt, maxAgeHours, now))
    && (forall i, j :: 0 <= i < j < count ==> secrets[i].key != secrets[j].key)
  }

  /** What an acceptable manifest is, without saying how it is checked. */
  ghost predicate Acceptable(target: Target, m: Manifest, required: seq<string>, maxAgeHours: int, now: int) {
    && HeaderFine(target, m, maxAgeHours, now)
    && m.secrets != []
    && EntriesFine(m.secrets, |m.secrets|, maxAgeHours, now)
    && (forall k :: k in required ==> exists i :: 0 <= i < |m.secrets| && m.secrets[i].key == k)
  }

  // ---------------------------------------------------------------------------------------------
  // The validator
  // ---------------------------------------------------------------------------------------------

  /** At most one issue: not a date, or too old. */
  method ValidateTimestampAge(t: Timestamp, maxAgeHours: int, now: int, undated: Issue, stale: Issue) returns (issues: seq<Issue>)
    ensures issues == [] <==> Fresh(t, maxAgeHours, now)
    ensures t.None? ==> issues == [undated]
    ensures t.Some? && !Fresh(t, maxAgeHours, now) ==> issues == [stale]
  {
    if t.None? {
      return [undated];
    }
    if now - t.value > maxAgeHours * HOUR {
      return [stale];
    }
    return [];
  }

  /** Exactly the good keys among the first `count` entries. */
  ghost predicate KeysSeen(secrets: seq<Secret>, count: nat, seen: set<string>)
    requires count <= |secrets|
  {
    && (forall k :: k in seen ==> GoodKey(k) && exists i :: 0 <= i < count && secrets[i].key == k)
    && (forall i :: 0 <= i < count && GoodKey(secrets[i].key) ==> secrets[i].key in seen)
  }

  lemma NextKey(secrets: seq<Secret>, index: nat, seen: set<string>)
    requires index < |secrets| && KeysSeen(secrets, index, seen)
    ensures KeysSeen(secrets, index + 1, if GoodKey(secrets[index].key) then seen + {secrets[index].key} else seen)
    ensures GoodKey(secrets[index].key) ==>
              (secrets[index].key in seen <==> exists i :: 0 <= i < index && secrets[i].key == secrets[index].key)
    ensures secrets[index].key in seen ==> seen + {secrets[index].key} == seen
  {
    hide GoodKey;
    var next := if GoodKey(secrets[index].key) then seen + {secrets[index].key} else seen;
    forall k | k in next ensures GoodKey(k) && exists i :: 0 <= i < index + 1 && secrets[i].key == k {
      if k in seen {
        var i :| 0 <= i < index && secrets[i].key == k;
        assert i < index + 1;
      } else {
        assert secrets[index].key == k;
      }
    }
  }

  method ValidateEntries(secrets: seq<Secret>, maxAgeHours: int, now: int) returns (issues: seq<Issue>, seen: set<string>)
    ensures issues == [] <==> EntriesFine(secrets, |secrets|, maxAgeHours, now)
    ensures KeysSeen(secrets, |secrets|, seen)
  {
    issues, seen := [], {};
    for index := 0 to |secrets|
      invariant issues == [] <==> EntriesFine(secrets, index, maxAgeHours, now)
      invariant KeysSeen(secrets, index, seen)
    {
      var secret := secrets[index];
      NextKey(secrets, index, seen);
      if |Trim(secret.key)| < 2 {
        issues := issues + [BlankKey];
        continue;
      }
      if secret.key in seen {
        issues := issues + [DuplicateKey(secret.key)];
        continue;
      }
      var aged := ValidateTimestampAge(secret.rotatedAt, maxAgeHours, now, SecretUndated(secret.key), SecretStale(secret.key));
      NextEntry(secrets, index, maxAgeHours, now);
      seen := seen + {secret.key};
      issues := issues + aged;
    }
  }

  lemma NextEntry(secrets: seq<Secret>, index: nat, maxAgeHours: int, now: int)
    requires index < |secrets| && GoodKey(secrets[index].key)
    requires forall i :: 0 <= i < index ==> secrets[i].key != secrets[index].key
    ensures EntriesFine(secrets, index + 1, maxAgeHours, now) <==>
            EntriesFine(secrets, index, maxAgeHours, now) && Fresh(secrets[index].rotatedAt, maxAgeHours, now)
  {
  }

  method ValidateHeader(target: Target, m: Manifest, maxAgeHours: int, now: int) returns (issues: seq<Issue>)
    ensures issues == [] <==> HeaderFine(target, m, maxAgeHours, now)
  {
    issues := [];
    if m.version != 1 {
      issues := issues + [WrongVersion];
    }
    if m.environment != target {
      issues := issues + [WrongEnvironment];
    }
    if |Trim(m.rotatedBy)| < 5 {
      issues := issues + [NoOperator];
    }
    if |Trim(m.reason)| < 12 {
      issues := issues + [NoReason];
    }
    var aged := ValidateTimestampAge(m.generatedAt, maxAgeHours, now, ManifestUndated, ManifestStale);
    issues := issues + aged;
  }

  /** One issue per required key that was not seen, in order. */
  method ValidateRequired(required: seq<string>, seen: set<string>) returns (issues: seq<Issue>)
    ensures issues == [] <==> forall k :: k in required ==> k in seen
    ensures forall k :: MissingKey(k) in issues <==> k in required && k !in seen
  {
    issues := [];
    for index := 0 to |required|
      invariant issues == [] <==> forall k :: k in required[..index] ==> k in seen
      invariant forall k :: MissingKey(k) in issues <==> k in required[..index] && k !in seen
    {
      assert required[..index + 1] == required[..index] + [required[index]];
      if required[index] !in seen {
        issues := issues + [MissingKey(required[index])];
      }
    }
    assert required[..|required|] == required;
  }

  /** The validator accumulates issues; it reports none exactly when the manifest is acceptable. */
  method ValidateManifest(target: Target, m: Manifest, required: seq<string>, maxAgeHours: int, now: int) returns (issues: seq<Issue>)
    ensures issues == [] <==> Acceptable(target, m, required, maxAgeHours, now)
  {
    issues := ValidateHeader(target, m, maxAgeHours, now);
    if |m.secrets| == 0 {
      return issues + [NoSecrets];
    }
    var entryIssues, seen := ValidateEntries(m.secrets, maxAgeHours, now);
    var missing := ValidateRequired(required, seen);
    issues := issues + entryIssues + missing;
  }

  // ---------------------------------------------------------------------------------------------
  // The producer
  // ---------------------------------------------------------------------------------------------

  /** Trimmed, non-blank and each only once, in order of first appearance. */
  function CleanKeys(entries: seq<string>): (keys: seq<string>)
    ensures forall k :: k in keys <==> k != "" && exists i :: 0 <= i < |entries| && Trim(entries[i]) == k
    ensures forall i, j :: 0 <= i < j < |keys| ==> keys[i] != keys[j]
  {
    if entries == [] then []
    else
      var front, key := entries[..|entries| - 1], Trim(entries[|entries| - 1]);
      var before := CleanKeys(front);
      assert forall i :: 0 <= i < |front| ==> front[i] == entries[i];
      if key == "" || key in before then before else before + [key]
  }

  function SecretsFor(keys: seq<string>, now: int): (secrets: seq<Secret>)
    ensures |secrets| == |keys|
    ensures forall i :: 0 <= i < |keys| ==> secrets[i] == Secret(keys[i], Some(now))
  {
    seq(|keys|, i requires 0 <= i < |keys| => Secret(keys[i], Some(now)))
  }

  datatype Refusal = NoActor | NoDetail | NoKeys

  /** The manifest a rotation writes, or why it is refused. */
  function Rotate(environment: Target, rotatedBy: string, reason: string, entries: seq<string>, now: int): Result<Manifest, Refusal> {
    var actor := Lower(Trim(rotatedBy));
    var detail := Trim(reason);
    var keys := CleanKeys(entries);
    if |Trim(actor)| < 5 || '@' !in actor then Refused(NoActor)
    else if |Trim(detail)| < 12 then Refused(NoDetail)
    else if keys == [] then Refused(NoKeys)
    else Ok(Manifest(1, environment, actor, detail, Some(now),
                     SecretsFor(keys, now)))
  }

  lemma {:induction false} CleanKeysAreTrimmed(entries: seq<string>, key: string)
    requires key in CleanKeys(entries)
    ensures Trim(key) == key
  {
    var i :| 0 <= i < |entries| && Trim(entries[i]) == key;
    TrimTwice(entries[i]);
  }

  /** What a rotation takes, the first failing reason, and what it writes. */
  lemma RotatesExactlyWhen(environment: Target, rotatedBy: string, reason: string, entries: seq<string>, now: int)
    ensures var result := Rotate(environment, rotatedBy, reason, entries, now);
            var actor, detail := Lower(Trim(rotatedBy)), Trim(reason);
            var addressed := 5 <= |Trim(actor)| && exists i :: 0 <= i < |actor| && actor[i] == '@';
            var named := exists i :: 0 <= i < |entries| && Trim(entries[i]) != "";
            && (result == Refused(NoActor) <==> !addressed)
            && (result == Refused(NoDetail) <==> addressed && |detail| < 12)
            && (result == Refused(NoKeys) <==> addressed && 12 <= |detail| && !named)
            && (result.Ok? ==>
                  var m := result.value;
                  && m.version == 1 && m.environment == environment && m.rotatedBy == actor && m.reason == detail
                  && m.generatedAt == Some(now) && |m.secrets| == |CleanKeys(entries)|
                  && forall i :: 0 <= i < |m.secrets| ==> m.secrets[i] == Secret(CleanKeys(entries)[i], Some(now)))
  {
    TrimTwice(reason);
    var keys := CleanKeys(entries);
    assert keys != [] ==> keys[0] in keys;
    if i :| 0 <= i < |entries| && Trim(entries[i]) != "" {
      assert Trim(entries[i]) in keys;
    }
  }

  /**
   * A manifest as produced passes validation for its own environment, at any time within the age
   * window, exactly when its keys cover the required ones and each has at least two characters.
   */
  lemma ProducedManifestsPassExactlyWhen(environment: Target, rotatedBy: string, reason: string, entries: seq<string>,
                                         required: seq<string>, maxAgeHours: int, producedAt: int, now: int)
    requires Rotate(environment, rotatedBy, reason, entries, producedAt).Ok?
    requires now - producedAt <= maxAgeHours * HOUR
    ensures var m := Rotate(environment, rotatedBy, reason, entries, producedAt).value;
            var keys := CleanKeys(entries);
            Acceptable(environment, m, required, maxAgeHours, now) <==>
            && (forall k :: k in required ==> k in keys)
            && (forall k :: k in keys ==> |k| >= 2)
  {
    var m := Rotate(environment, rotatedBy, reason, entries, producedAt).value;
    var keys := CleanKeys(entries);
    forall k | k in keys ensures GoodKey(k) <==> |k| >= 2 {
      CleanKeysAreTrimmed(entries, k);
    }
    SecretsForKeys(keys, maxAgeHours, producedAt, now);
    CoveredBy(required, keys, producedAt);
    assert HeaderFine(environment, m, maxAgeHours, now);
  }

  lemma SecretsForKeys(keys: seq<string>, maxAgeHours: int, producedAt: int, now: int)
    requires now - producedAt <= maxAgeHours * HOUR
    requires forall i, j :: 0 <= i < j < |keys| ==> keys[i] != keys[j]
    ensures EntriesFine(SecretsFor(keys, producedAt), |keys|, maxAgeHours, now) <==> forall k :: k in keys ==> GoodKey(k)
  {
    var secrets := SecretsFor(keys, producedAt);
    if EntriesFine(secrets, |keys|, maxAgeHours, now) {
      forall k | k in keys ensures GoodKey(k) {
        var i :| 0 <= i < |keys| && keys[i] == k;
        assert GoodKey(secrets[i].key);
      }
    }
  }

  lemma CoveredBy(required: seq<string>, keys: seq<string>, producedAt: int)
    ensures (forall k :: k in required ==> exists i :: 0 <= i < |keys| && SecretsFor(keys, producedAt)[i].key == k)
       <==> (forall k :: k in required ==> k in keys)
  {
    var secrets := SecretsFor(keys, producedAt);
    forall k ensures k in keys <==> exists i :: 0 <= i < |keys| && secrets[i].key == k {
      if k in keys {
        var i :| 0 <= i < |keys| && keys[i] == k;
        assert secrets[i].key == k;
      }
    }
  }
}
