/** The transaction log over the store (internal/storage/delta/log.go): one file per version. */
module TransactionLogs {
  import opened Wrappers
  import opened Actions
  import opened Keys
  import opened ObjectStores

  predicate Ascending(versions: seq<int>) {
    forall i, j :: 0 <= i < j < |versions| ==> versions[i] <= versions[j]
  }

  predicate StrictlyAscending(versions: seq<int>) {
    forall i, j :: 0 <= i < j < |versions| ==> versions[i] < versions[j]
  }

  /** The versions that the key tests of `ListVersions` find under a prefix. */
  ghost function WrittenVersions(objects: map<string, Blob>, prefix: string): set<int> {
    set key | key in objects && HasPrefix(key, prefix) && VersionOfKey(key).Some? :: VersionOfKey(key).value
  }

  /** No two keys under the prefix decode to the same version. */
  ghost predicate OneKeyPerVersion(objects: map<string, Blob>, prefix: string) {
    forall k, l ::
      (&& k in objects && HasPrefix(k, prefix) && VersionOfKey(k).Some?
       && l in objects && HasPrefix(l, prefix) && VersionOfKey(l) == VersionOfKey(k)) ==> k == l
  }

  /** A log directory: entries of the written versions, checkpoints, the marker, nothing else. */
  ghost predicate IsLogDirectory(objects: map<string, Blob>, prefix: string, written: set<int>) {
    && IsDirectory(prefix)
    && (forall v :: v in written ==> 0 <= v < INT64_LIMIT && VersionKey(prefix, v) in objects)
    && (forall key :: key in objects && HasPrefix(key, prefix) ==>
          || (exists v: nat :: v in written && key == VersionKey(prefix, v))
          || (exists v: nat :: key == CheckpointKey(prefix, v))
          || key == MarkerKey(prefix))
  }

  /** In any log directory, what the listing finds is exactly the written versions: never a
      checkpoint, never the marker, and each version under one key. */
  lemma ListingFindsExactlyTheEntries(objects: map<string, Blob>, prefix: string, written: set<int>)
    requires IsLogDirectory(objects, prefix, written)
    ensures WrittenVersions(objects, prefix) == written
    ensures OneKeyPerVersion(objects, prefix)
  {
    forall key | key in objects && HasPrefix(key, prefix) && VersionOfKey(key).Some?
      ensures VersionOfKey(key).value in written && key == VersionKey(prefix, VersionOfKey(key).value)
    {
      MarkerKeyIsNoVersion(prefix);
      if v: nat :| v in written && key == VersionKey(prefix, v) {
        VersionKeyRoundTrip(prefix, v);
      } else {
        var v: nat :| key == CheckpointKey(prefix, v);
        CheckpointKeyIsNoVersion(prefix, v);
        assert false;
      }
    }
    forall v: int | v in written ensures v in WrittenVersions(objects, prefix) {
      VersionKeyRoundTrip(prefix, v);
      assert VersionOfKey(VersionKey(prefix, v)).value == v;
    }
  }

  /** The store holds exactly this log under the prefix: entry v has the actions log[v], and no
      other key under the prefix reads as a version.  Checkpoints and the marker may be there. */
  ghost predicate HoldsLog(objects: map<string, Blob>, prefix: string, log: seq<seq<Action>>) {
    && IsDirectory(prefix)
    && |log| <= INT64_LIMIT
    && (forall v {:trigger VersionKey(prefix, v)} :: 0 <= v < |log| ==>
          VersionKey(prefix, v) in objects && objects[VersionKey(prefix, v)] == LogFile(log[v]))
    && (forall key {:trigger VersionOfKey(key)} :: key in objects && HasPrefix(key, prefix) && VersionOfKey(key).Some? ==>
          0 <= VersionOfKey(key).value < |log| && key == VersionKey(prefix, VersionOfKey(key).value))
  }

  lemma HeldVersions(objects: map<string, Blob>, prefix: string, log: seq<seq<Action>>)
    requires HoldsLog(objects, prefix, log)
    ensures forall v :: v in WrittenVersions(objects, prefix) <==> 0 <= v < |log|
    ensures OneKeyPerVersion(objects, prefix)
  {
    forall v: int | 0 <= v < |log| ensures v in WrittenVersions(objects, prefix) {
      VersionKeyRoundTrip(prefix, v);
      assert VersionOfKey(VersionKey(prefix, v)).value == v;
    }
  }

  lemma HeldEntry(objects: map<string, Blob>, prefix: string, log: seq<seq<Action>>, v: nat)
    requires HoldsLog(objects, prefix, log) && v < INT64_LIMIT
    ensures VersionKey(prefix, v) in objects <==> v < |log|
    ensures v < |log| ==> objects[VersionKey(prefix, v)] == LogFile(log[v])
  {
    VersionKeyRoundTrip(prefix, v);
    assert HasPrefix(VersionKey(prefix, v), prefix);
  }

  lemma LatestOfHeldLog(objects: map<string, Blob>, prefix: string, log: seq<seq<Action>>, latest: int)
    requires HoldsLog(objects, prefix, log)
    requires IsLatest(WrittenVersions(objects, prefix), latest)
    ensures latest == |log| - 1
  {
    HeldVersions(objects, prefix, log);
    if |log| > 0 {
      assert |log| - 1 in WrittenVersions(objects, prefix);
    }
  }

  /** A write that is not a log entry under the prefix leaves the log alone. */
  lemma OtherWritesKeepTheLog(objects: map<string, Blob>, prefix: string, log: seq<seq<Action>>, key: string, blob: Blob)
    requires HoldsLog(objects, prefix, log)
    requires !HasPrefix(key, prefix) || VersionOfKey(key) == None
    ensures HoldsLog(objects[key := blob], prefix, log)
  {
    forall v: int | 0 <= v < |log| ensures VersionKey(prefix, v) != key {
      VersionKeyRoundTrip(prefix, v);
    }
  }

  lemma AppendingAVersion(objects: map<string, Blob>, prefix: string, log: seq<seq<Action>>, version: seq<Action>)
    requires HoldsLog(objects, prefix, log) && |log| < INT64_LIMIT
    ensures HoldsLog(objects[VersionKey(prefix, |log|) := LogFile(version)], prefix, log + [version])
  {
    var after := objects[VersionKey(prefix, |log|) := LogFile(version)];
    VersionKeyRoundTrip(prefix, |log|);
    forall v | 0 <= v < |log| + 1
      ensures VersionKey(prefix, v) in after && after[VersionKey(prefix, v)] == LogFile((log + [version])[v])
    {
      EntryAfterAppending(objects, prefix, log, version, v);
    }
    forall key | key in after && HasPrefix(key, prefix) && VersionOfKey(key).Some?
      ensures 0 <= VersionOfKey(key).value < |log| + 1 && key == VersionKey(prefix, VersionOfKey(key).value)
    {
      if key != VersionKey(prefix, |log|) {
        assert key in objects;
      }
    }
  }

  lemma EntryAfterAppending(objects: map<string, Blob>, prefix: string, log: seq<seq<Action>>, version: seq<Action>, v: nat)
    requires HoldsLog(objects, prefix, log) && |log| < INT64_LIMIT && v <= |log|
    ensures var after := objects[VersionKey(prefix, |log|) := LogFile(version)];
            VersionKey(prefix, v) in after && after[VersionKey(prefix, v)] == LogFile((log + [version])[v])
  {
    VersionKeyRoundTrip(prefix, |log|);
    VersionKeyRoundTrip(prefix, v);
  }

  /** One step of the sort: `v` goes behind every entry that is not larger. */
  method InsertSorted(versions: seq<int>, v: int) returns (r: seq<int>)
    requires Ascending(versions)
    ensures Ascending(r) && |r| == |versions| + 1
    ensures forall x :: x in r <==> x in versions || x == v
    ensures v !in versions && StrictlyAscending(versions) ==> StrictlyAscending(r)
  {
    var i := |versions|;
    while i > 0 && versions[i - 1] > v
      invariant 0 <= i <= |versions|
      invariant forall j :: i <= j < |versions| ==> versions[j] > v
    {
      i := i - 1;
    }
    r := versions[..i] + [v] + versions[i..];
    InsertionAscends(versions, i, v);
    if v !in versions && StrictlyAscending(versions) {
      InsertionStrict(versions, i, v);
    }
    forall x ensures x in r <==> x in versions || x == v {
      InsertionMembers(versions, i, v, x);
    }
  }

  lemma InsertionAscends(versions: seq<int>, i: nat, v: int)
    requires i <= |versions| && Ascending(versions)
    requires i > 0 ==> versions[i - 1] <= v
    requires i < |versions| ==> v < versions[i]
    ensures Ascending(versions[..i] + [v] + versions[i..])
  {
    var r := versions[..i] + [v] + versions[i..];
    assert forall k :: 0 <= k < i ==> r[k] == versions[k] && r[k] <= v;
    assert forall k :: i < k < |r| ==> r[k] == versions[k - 1] && v < r[k];
  }

  lemma InsertionStrict(versions: seq<int>, i: nat, v: int)
    requires i <= |versions| && StrictlyAscending(versions) && v !in versions
    requires i > 0 ==> versions[i - 1] <= v
    requires i < |versions| ==> v < versions[i]
    ensures StrictlyAscending(versions[..i] + [v] + versions[i..])
  {
    var r := versions[..i] + [v] + versions[i..];
    forall j, k | 0 <= j < k < |r| ensures r[j] < r[k] {
      InsertionAt(versions, i, v, j);
      InsertionAt(versions, i, v, k);
    }
  }

  lemma InsertionAt(versions: seq<int>, i: nat, v: int, k: nat)
    requires i <= |versions| && k <= |versions|
    ensures (versions[..i] + [v] + versions[i..])[k] == if k < i then versions[k] else if k == i then v else versions[k - 1]
  {
  }

  lemma InsertionMembers(versions: seq<int>, i: nat, v: int, x: int)
    requires i <= |versions|
    ensures x in versions[..i] + [v] + versions[i..] <==> x in versions || x == v
  {
    assert versions == versions[..i] + versions[i..];
  }

  /** Some key among the first `n` decodes to `v`. */
  ghost predicate FoundAmong(keys: seq<string>, n: nat, v: int) {
    exists j :: 0 <= j < n <= |keys| && VersionOfKey(keys[j]) == Some(v)
  }

  lemma FoundIsWritten(objects: map<string, Blob>, prefix: string, keys: seq<string>, v: int)
    requires forall key :: key in keys <==> key in objects && HasPrefix(key, prefix)
    ensures FoundAmong(keys, |keys|, v) <==> v in WrittenVersions(objects, prefix)
  {
    if v in WrittenVersions(objects, prefix) {
      var key :| key in objects && HasPrefix(key, prefix) && VersionOfKey(key) == Some(v);
      assert key in keys;
    }
  }

  class TransactionLog {
    const store: ObjectStore
    const logPrefix: string

    constructor (store: ObjectStore, logPrefix: string)
      ensures this.store == store && this.logPrefix == logPrefix
    {
      this.store := store;
      this.logPrefix := logPrefix;
    }

    method WriteVersion(version: int, actions: seq<Action>, outcome: WriteOutcome) returns (ok: bool)
      requires 0 <= version
      modifies store
      ensures store.objects == AfterWrite(old(store.objects), VersionKey(logPrefix, version), LogFile(actions), outcome)
      ensures ok <==> outcome.Acknowledged?
    {
      ok := store.Upload(VersionKey(logPrefix, version), LogFile(actions), outcome);
    }

    method ReadVersion(version: int, fails: bool) returns (r: Result<seq<Action>, StoreError>)
      requires 0 <= version
      ensures var key := VersionKey(logPrefix, version);
              r == if !fails && key in store.objects && store.objects[key].LogFile?
                   then Ok(store.objects[key].actions) else Err(StoreError)
    {
      var blob := store.Download(VersionKey(logPrefix, version), fails);
      if blob.Err? || !blob.value.LogFile? {
        return Err(StoreError);
      }
      r := Ok(blob.value.actions);
    }

    /** All versions under the prefix, ascending. */
    method ListVersions(fails: bool) returns (r: Result<seq<int>, StoreError>)
      ensures r.Err? <==> fails
      ensures r.Ok? ==> Ascending(r.value)
      ensures r.Ok? ==> forall v :: v in r.value <==> v in WrittenVersions(store.objects, logPrefix)
      ensures r.Ok? && OneKeyPerVersion(store.objects, logPrefix) ==> StrictlyAscending(r.value)
    {
      var listed := store.List(logPrefix, fails);
      if listed.Err? {
        return Err(StoreError);
      }
      var keys := listed.value;
      var versions: seq<int> := [];
      for i := 0 to |keys|
        invariant Ascending(versions)
        invariant forall v :: v in versions <==> FoundAmong(keys, i, v)
        invariant OneKeyPerVersion(store.objects, logPrefix) ==> StrictlyAscending(versions)
      {
        var parsed := VersionOfKey(keys[i]);
        assert forall v :: FoundAmong(keys, i + 1, v) <==> FoundAmong(keys, i, v) || parsed == Some(v);
        if parsed.Some? {
          assert OneKeyPerVersion(store.objects, logPrefix) ==> !FoundAmong(keys, i, parsed.value);
          versions := InsertSorted(versions, parsed.value);
        }
      }
      forall v ensures v in versions <==> v in WrittenVersions(store.objects, logPrefix) {
        FoundIsWritten(store.objects, logPrefix, keys, v);
      }
      r := Ok(versions);
    }

    /** The highest version, or -1 for an empty log. */
    method LatestVersion(fails: bool) returns (r: Result<int, StoreError>)
      ensures r.Err? <==> fails
      ensures r.Ok? ==> IsLatest(WrittenVersions(store.objects, logPrefix), r.value)
    {
      var listed := ListVersions(fails);
      if listed.Err? {
        return Err(StoreError);
      }
      var versions := listed.value;
      ghost var written := WrittenVersions(store.objects, logPrefix);
      LastIsLatest(versions, written);
      if |versions| == 0 {
        return Ok(-1);
      }
      r := Ok(versions[|versions| - 1]);
    }
  }

  /** `latest` is the largest written version, or -1 when nothing is written. */
  ghost predicate IsLatest(written: set<int>, latest: int) {
    if written == {} then latest == -1
    else latest in written && forall v :: v in written ==> v <= latest
  }

  lemma LastIsLatest(versions: seq<int>, written: set<int>)
    requires Ascending(versions) && forall v :: v in versions <==> v in written
    ensures IsLatest(written, if versions == [] then -1 else versions[|versions| - 1])
  {
    if versions == [] {
      forall v ensures v !in written {
        assert v !in versions;
      }
    } else {
      assert versions[|versions| - 1] in versions;
    }
  }
}
