/** Row batching of bulk query results (internal/connector/salesforce/bulk.go). */
module BulkResults {
  import opened Wrappers
  import ObjectSyncs
  import SyncEngine

  /** A missing value is `None`. */
  type Record = map<string, Option<string>>

  /** What the CSV reader returns before the end of the file: a row, or an error that ends the stream. */
  datatype Read = Row(values: seq<string>) | Broken

  datatype StreamEnd = Complete | HeaderError | RowError | Cancelled

  function Flatten<T>(batches: seq<seq<T>>): seq<T> {
    if batches == [] then [] else Flatten(batches[..|batches| - 1]) + batches[|batches| - 1]
  }

  function Value(s: string): Option<string> {
    if s == "" then None else Some(s)
  }

  /** The columns a row has values for. */
  function Columns(header: seq<string>, row: seq<string>): nat {
    if |header| < |row| then |header| else |row|
  }

  /** The record after the first `n` columns: a later column of the same name replaces an earlier one. */
  function RecordUpTo(header: seq<string>, row: seq<string>, n: nat): Record
    requires n <= Columns(header, row)
  {
    if n == 0 then map[] else RecordUpTo(header, row, n - 1)[header[n - 1] := Value(row[n - 1])]
  }

  function RecordOf(header: seq<string>, row: seq<string>): Record {
    RecordUpTo(header, row, Columns(header, row))
  }

  method BuildRecord(header: seq<string>, row: seq<string>) returns (record: Record)
    ensures record == RecordOf(header, row)
  {
    record := map[];
    for i := 0 to |header|
      invariant record == RecordUpTo(header, row, if i < |row| then i else Columns(header, row))
    {
      if i < |row| {
        var val := row[i];
        if val == "" {
          record := record[header[i] := None];
        } else {
          record := record[header[i] := Some(val)];
        }
      }
    }
  }

  /** A record holds exactly the named columns its row reaches. */
  lemma {:induction false} RecordHoldsTheNamedColumns(header: seq<string>, row: seq<string>, n: nat, name: string)
    requires n <= Columns(header, row)
    ensures name in RecordUpTo(header, row, n) <==> name in header[..n]
  {
    if n > 0 {
      RecordHoldsTheNamedColumns(header, row, n - 1, name);
      assert header[..n] == header[..n - 1] + [header[n - 1]];
    }
  }

  /** The last column of a name gives its value, an empty value being a missing one. */
  lemma {:induction false} LastColumnWins(header: seq<string>, row: seq<string>, n: nat, i: nat)
    requires i < n <= Columns(header, row) && header[i] !in header[i + 1..n]
    ensures header[i] in RecordUpTo(header, row, n)
    ensures RecordUpTo(header, row, n)[header[i]] == if row[i] == "" then None else Some(row[i])
  {
    if i < n - 1 {
      assert header[i + 1..n] == header[i + 1..n - 1] + [header[n - 1]];
      LastColumnWins(header, row, n - 1, i);
    }
  }

  /** So the record of a row has a value for exactly the columns that both the header and the row reach,
      and for each name it is that of the last such column. */
  lemma RecordIsTheRow(header: seq<string>, row: seq<string>, name: string)
    ensures name in RecordOf(header, row) <==> exists i :: 0 <= i < |header| && i < |row| && header[i] == name
    ensures forall i :: 0 <= i < |header| && i < |row| && header[i] == name
                        && (forall j :: i < j < |header| && j < |row| ==> header[j] != name) ==>
              RecordOf(header, row)[name] == if row[i] == "" then None else Some(row[i])
  {
    var n := Columns(header, row);
    RecordHoldsTheNamedColumns(header, row, n, name);
    if name in header[..n] {
      var i :| 0 <= i < n && header[i] == name;
    }
    forall i | 0 <= i < |header| && i < |row| && header[i] == name
               && forall j :: i < j < |header| && j < |row| ==> header[j] != name
      ensures name in RecordOf(header, row) && RecordOf(header, row)[name] == if row[i] == "" then None else Some(row[i])
    {
      assert name !in header[i + 1..n];
      LastColumnWins(header, row, n, i);
    }
  }

  /** The rows before the first read error. */
  function GoodRows(stream: seq<Read>): (rows: seq<seq<string>>)
    ensures |rows| <= |stream|
    ensures forall i :: 0 <= i < |rows| ==> stream[i] == Row(rows[i])
    ensures |rows| == |stream| || stream[|rows|] == Broken
  {
    if stream == [] || stream[0].Broken? then [] else [stream[0].values] + GoodRows(stream[1..])
  }

  /** `records` are the records of the first rows, in order. */
  ghost predicate AreFirstRecords(header: seq<string>, rows: seq<seq<string>>, records: seq<Record>) {
    |records| <= |rows| && forall i :: 0 <= i < |records| ==> records[i] == RecordOf(header, rows[i])
  }

  /** How many records one batch holds: a batch size of zero sends every record on its own. */
  function Capacity(batchSize: nat): nat {
    if batchSize == 0 then 1 else batchSize
  }

  ghost predicate AllFull(batches: seq<seq<Record>>, batchSize: nat) {
    forall i :: 0 <= i < |batches| ==> |batches[i]| == Capacity(batchSize)
  }

  /** No batch is empty, and all but the last are full. */
  ghost predicate FullButTheLast(batches: seq<seq<Record>>, batchSize: nat) {
    forall i :: 0 <= i < |batches| ==>
      0 < |batches[i]| <= Capacity(batchSize) && (i < |batches| - 1 ==> |batches[i]| == Capacity(batchSize))
  }

  /** The receiver takes no more than the `n` batches it has. */
  predicate Exhausted(room: Option<nat>, n: nat) {
    room.Some? && room.value <= n
  }

  /** `sent` is what a run over `stream` delivers when the receiver takes at most `room` batches. */
  ghost predicate Delivers(header: seq<string>, stream: seq<Read>, batchSize: nat, room: Option<nat>, sent: seq<seq<Record>>, end: StreamEnd) {
    && end != HeaderError
    && AreFirstRecords(header, GoodRows(stream), Flatten(sent))
    && (room.Some? ==> |sent| <= room.value)
    && var left := |GoodRows(stream)| - |Flatten(sent)|;
    match end
    case Complete =>
      GoodRowsOnly(stream) && left == 0 && FullButTheLast(sent, batchSize)
    case RowError => !GoodRowsOnly(stream) && AllFull(sent, batchSize) && left < Capacity(batchSize)
    case Cancelled =>
      && AllFull(sent, batchSize) && Exhausted(room, |sent|) && left > 0
      && (GoodRowsOnly(stream) || left >= Capacity(batchSize))
    case HeaderError => false
  }

  ghost predicate GoodRowsOnly(stream: seq<Read>) {
    |GoodRows(stream)| == |stream|
  }

  /** Reads the rows, batching as it goes. `room` is how many batches are taken before the context
      is cancelled, if it is. */
  method StreamBulkResults(header: Option<seq<string>>, stream: seq<Read>, batchSize: nat, room: Option<nat>)
    returns (sent: seq<seq<Record>>, end: StreamEnd)
    ensures header.None? ==> end == HeaderError && sent == []
    ensures header.Some? ==> Delivers(header.value, stream, batchSize, room, sent, end)
  {
    sent := [];
    if header.None? {
      return sent, HeaderError;
    }
    var batch: seq<Record> := [];
    ghost var rows := GoodRows(stream);
    for i := 0 to |stream|
      invariant Pending(header.value, rows, batchSize, room, i, sent, batch)
    {
      Stopped(header.value, stream, batchSize, room, i, sent, batch);
      if stream[i].Broken? {
        return sent, RowError;
      }
      var record := BuildRecord(header.value, stream[i].values);
      if |batch| + 1 >= batchSize && Exhausted(room, |sent|) {
        return sent, Cancelled;
      }
      OneMore(header.value, rows, batchSize, room, i, sent, batch, record);
      batch := batch + [record];
      if |batch| >= batchSize {
        sent := sent + [batch];
        batch := [];
      }
    }
    if |batch| > 0 {
      if Exhausted(room, |sent|) {
        LastBatchRefused(header.value, stream, batchSize, room, sent, batch);
        return sent, Cancelled;
      }
      LastBatchSent(header.value, stream, batchSize, room, sent, batch);
      return sent + [batch], Complete;
    }
    NothingWaits(header.value, stream, batchSize, room, sent);
    end := Complete;
  }

  /** After `i` rows: everything sent is in full batches, and the rest waits in `batch`. */
  ghost predicate Pending(header: seq<string>, rows: seq<seq<string>>, batchSize: nat, room: Option<nat>,
                          i: nat, sent: seq<seq<Record>>, batch: seq<Record>)
  {
    && i == |Flatten(sent)| + |batch|
    && AreFirstRecords(header, rows, Flatten(sent) + batch)
    && AllFull(sent, batchSize) && |batch| < Capacity(batchSize)
    && (room.Some? ==> |sent| <= room.value)
  }

  lemma OneMore(header: seq<string>, rows: seq<seq<string>>, batchSize: nat, room: Option<nat>,
                i: nat, sent: seq<seq<Record>>, batch: seq<Record>, record: Record)
    requires Pending(header, rows, batchSize, room, i, sent, batch)
    requires i < |rows| && record == RecordOf(header, rows[i])
    requires |batch| + 1 >= batchSize ==> !Exhausted(room, |sent|)
    ensures if |batch| + 1 < batchSize then Pending(header, rows, batchSize, room, i + 1, sent, batch + [record])
            else Pending(header, rows, batchSize, room, i + 1, sent + [batch + [record]], [])
  {
    var longer := batch + [record];
    assert Flatten(sent) + longer == (Flatten(sent) + batch) + [record];
    NextRecord(header, rows, Flatten(sent) + batch, record);
    if |longer| >= batchSize {
      SendOne(sent, longer);
      assert Flatten(sent + [longer]) + [] == Flatten(sent) + longer;
    }
  }

  lemma NextRecord(header: seq<string>, rows: seq<seq<string>>, records: seq<Record>, record: Record)
    requires AreFirstRecords(header, rows, records)
    requires |records| < |rows| && record == RecordOf(header, rows[|records|])
    ensures AreFirstRecords(header, rows, records + [record])
  {
  }

  lemma SentRecords(header: seq<string>, rows: seq<seq<string>>, sent: seq<Record>, batch: seq<Record>)
    requires AreFirstRecords(header, rows, sent + batch)
    ensures AreFirstRecords(header, rows, sent)
  {
    assert forall i :: 0 <= i < |sent| ==> (sent + batch)[i] == sent[i];
  }

  /** The stream may stop at row `i`: on a read error, or when a full batch is not taken. */
  lemma Stopped(header: seq<string>, stream: seq<Read>, batchSize: nat, room: Option<nat>,
                i: nat, sent: seq<seq<Record>>, batch: seq<Record>)
    requires Pending(header, GoodRows(stream), batchSize, room, i, sent, batch) && i < |stream|
    ensures stream[i].Row? ==> i < |GoodRows(stream)| && stream[i].values == GoodRows(stream)[i]
    ensures stream[i].Broken? ==> Delivers(header, stream, batchSize, room, sent, RowError)
    ensures stream[i].Row? && |batch| + 1 >= batchSize && Exhausted(room, |sent|) ==>
              Delivers(header, stream, batchSize, room, sent, Cancelled)
  {
    SentRecords(header, GoodRows(stream), Flatten(sent), batch);
  }

  lemma Completed(header: seq<string>, stream: seq<Read>, batchSize: nat, room: Option<nat>, all: seq<seq<Record>>)
    requires AreFirstRecords(header, GoodRows(stream), Flatten(all)) && |Flatten(all)| == |stream|
    requires FullButTheLast(all, batchSize) && (room.Some? ==> |all| <= room.value)
    ensures Delivers(header, stream, batchSize, room, all, Complete)
  {
  }

  /** At the end of the file with nothing waiting, the delivery is complete. */
  lemma NothingWaits(header: seq<string>, stream: seq<Read>, batchSize: nat, room: Option<nat>, sent: seq<seq<Record>>)
    requires Pending(header, GoodRows(stream), batchSize, room, |stream|, sent, [])
    ensures Delivers(header, stream, batchSize, room, sent, Complete)
  {
    assert Flatten(sent) + [] == Flatten(sent);
    Completed(header, stream, batchSize, room, sent);
  }

  lemma LastBatchRefused(header: seq<string>, stream: seq<Read>, batchSize: nat, room: Option<nat>, sent: seq<seq<Record>>, batch: seq<Record>)
    requires Pending(header, GoodRows(stream), batchSize, room, |stream|, sent, batch)
    requires batch != [] && Exhausted(room, |sent|)
    ensures Delivers(header, stream, batchSize, room, sent, Cancelled)
  {
    SentRecords(header, GoodRows(stream), Flatten(sent), batch);
  }

  lemma LastBatchSent(header: seq<string>, stream: seq<Read>, batchSize: nat, room: Option<nat>, sent: seq<seq<Record>>, batch: seq<Record>)
    requires Pending(header, GoodRows(stream), batchSize, room, |stream|, sent, batch)
    requires batch != [] && !Exhausted(room, |sent|)
    ensures Delivers(header, stream, batchSize, room, sent + [batch], Complete)
  {
    var all := sent + [batch];
    SendOne(sent, batch);
    OneShortBatch(sent, batch, batchSize);
    Completed(header, stream, batchSize, room, all);
  }

  lemma OneShortBatch(sent: seq<seq<Record>>, batch: seq<Record>, batchSize: nat)
    requires AllFull(sent, batchSize) && 0 < |batch| <= Capacity(batchSize)
    ensures FullButTheLast(sent + [batch], batchSize)
  {
  }

  lemma SendOne(sent: seq<seq<Record>>, batch: seq<Record>)
    ensures Flatten(sent + [batch]) == Flatten(sent) + batch
  {
    assert (sent + [batch])[..|sent|] == sent;
  }

  // ---------------------------------------------------------------- what a delivery determines

  lemma {:induction false} FullBatches(sent: seq<seq<Record>>, batchSize: nat)
    requires AllFull(sent, batchSize)
    ensures |Flatten(sent)| == |sent| * Capacity(batchSize)
  {
    if sent != [] {
      FullBatches(sent[..|sent| - 1], batchSize);
      assert |sent| * Capacity(batchSize) == (|sent| - 1) * Capacity(batchSize) + Capacity(batchSize);
    }
  }

  /** A complete delivery is the CSV rows in order, in as few batches as the batch size allows. */
  lemma CompleteDeliveryIsEveryRow(header: seq<string>, stream: seq<Read>, batchSize: nat, room: Option<nat>, sent: seq<seq<Record>>)
    requires Delivers(header, stream, batchSize, room, sent, Complete)
    ensures |Flatten(sent)| == |stream|
    ensures forall i :: 0 <= i < |stream| ==> stream[i].Row? && Flatten(sent)[i] == RecordOf(header, stream[i].values)
    ensures |sent| == (|stream| + Capacity(batchSize) - 1) / Capacity(batchSize)
    ensures |sent| == if batchSize == 0 then |stream| else (|stream| + batchSize - 1) / batchSize
  {
    if sent != [] {
      BatchCount(sent, batchSize);
      QuotientIs(|stream| + Capacity(batchSize) - 1, Capacity(batchSize), |sent|);
    }
  }

  lemma BatchCount(sent: seq<seq<Record>>, batchSize: nat)
    requires FullButTheLast(sent, batchSize) && sent != []
    ensures |sent| * Capacity(batchSize) <= |Flatten(sent)| + Capacity(batchSize) - 1 < |sent| * Capacity(batchSize) + Capacity(batchSize)
  {
    FullBatches(sent[..|sent| - 1], batchSize);
    assert |sent| * Capacity(batchSize) == (|sent| - 1) * Capacity(batchSize) + Capacity(batchSize);
  }

  lemma QuotientIs(n: nat, c: nat, q: nat)
    requires c > 0 && q * c <= n < q * c + c
    ensures n / c == q
  {
    SameMultiple(c, n / c, q);
  }

  lemma SameMultiple(c: nat, k: nat, q: nat)
    requires k * c < q * c + c && q * c < k * c + c
    ensures k == q
  {
    if k < q {
      Times(k + 1, q, c);
    } else if q < k {
      Times(q + 1, k, c);
    }
  }

  lemma Times(a: nat, b: nat, c: nat)
    requires a <= b
    ensures a * c <= b * c
  {
    assert b * c - a * c == (b - a) * c;
  }

  lemma {:induction false} RowsOfBatches(sent: seq<seq<Record>>, batches: seq<ObjectSyncs.BatchWorld>)
    requires |batches| == |sent| && forall i :: 0 <= i < |sent| ==> batches[i].rows == |sent[i]|
    ensures ObjectSyncs.RowsOf(batches) == |Flatten(sent)|
  {
    if sent != [] {
      RowsOfBatches(sent[..|sent| - 1], batches[..|batches| - 1]);
    }
  }

  /** Row conservation: when the engine syncs the batches of a complete delivery, the numRecords of
      the Adds it commits sum to the number of CSV rows, one Add per batch. */
  lemma CommittedRowsAreTheCsvRows(header: seq<string>, stream: seq<Read>, batchSize: nat, room: Option<nat>,
                                   sent: seq<seq<Record>>, batches: seq<ObjectSyncs.BatchWorld>)
    requires Delivers(header, stream, batchSize, room, sent, Complete)
    requires |batches| == |sent| && forall i :: 0 <= i < |sent| ==> batches[i].rows == |sent[i]|
    ensures SyncEngine.Rows(ObjectSyncs.AddsOf(batches)) == |stream| && ObjectSyncs.RowsOf(batches) == |stream|
    ensures |ObjectSyncs.AddsOf(batches)| == |sent|
  {
    CompleteDeliveryIsEveryRow(header, stream, batchSize, room, sent);
    ObjectSyncs.RowsOfAdds(batches);
    RowsOfBatches(sent, batches);
    assert forall i :: 0 <= i < |batches| ==> batches[i].rows > 0;
    OneAddPerBatch(batches);
  }

  lemma {:induction false} OneAddPerBatch(batches: seq<ObjectSyncs.BatchWorld>)
    requires forall i :: 0 <= i < |batches| ==> batches[i].rows > 0
    ensures |ObjectSyncs.AddsOf(batches)| == |batches|
  {
    if batches != [] {
      OneAddPerBatch(batches[..|batches| - 1]);
    }
  }
}
