/** The object store behind the log: a map from keys to contents.  JSON and Parquet encodings are
    abstract round trips, so a blob is the value that was encoded.  Faults are inputs. */
module ObjectStores {
  import opened Wrappers
  import opened Actions
  import opened Keys

  datatype Blob =
    | LogFile(actions: seq<Action>)
    | CheckpointFile(actions: seq<Action>)
    | Marker(version: nat, size: int)
    | DataFile(rows: int)

  /** A write may land and still be reported as failed. */
  datatype WriteOutcome = Acknowledged | Lost | LandedUnacknowledged

  datatype StoreError = StoreError

  function AfterWrite(objects: map<string, Blob>, key: string, blob: Blob, outcome: WriteOutcome): map<string, Blob> {
    if outcome.Lost? then objects else objects[key := blob]
  }

  class ObjectStore {
    var objects: map<string, Blob>

    constructor ()
      ensures objects == map[]
    {
      objects := map[];
    }

    method Upload(key: string, blob: Blob, outcome: WriteOutcome) returns (ok: bool)
      modifies this
      ensures objects == AfterWrite(old(objects), key, blob, outcome)
      ensures ok <==> outcome.Acknowledged?
    {
      if !outcome.Lost? {
        objects := objects[key := blob];
      }
      ok := outcome.Acknowledged?;
    }

    method Download(key: string, fails: bool) returns (r: Result<Blob, StoreError>)
      ensures r == if fails || key !in objects then Err(StoreError) else Ok(objects[key])
    {
      r := if fails || key !in objects then Err(StoreError) else Ok(objects[key]);
    }

    /** Every key under the prefix, once each, in no particular order. */
    method List(prefix: string, fails: bool) returns (r: Result<seq<string>, StoreError>)
      ensures r.Err? <==> fails
      ensures r.Ok? ==> forall key :: key in r.value <==> key in objects && HasPrefix(key, prefix)
      ensures r.Ok? ==> forall i, j :: 0 <= i < j < |r.value| ==> r.value[i] != r.value[j]
    {
      if fails {
        return Err(StoreError);
      }
      var keys: seq<string> := [];
      var rest := objects.Keys;
      while rest != {}
        invariant rest <= objects.Keys
        invariant forall key :: key in keys <==> key in objects.Keys - rest && HasPrefix(key, prefix)
        invariant forall i, j :: 0 <= i < j < |keys| ==> keys[i] != keys[j]
        decreases |rest|
      {
        var key :| key in rest;
        rest := rest - {key};
        if HasPrefix(key, prefix) {
          keys := keys + [key];
        }
      }
      r := Ok(keys);
    }
  }
}
