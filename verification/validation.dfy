/** Checkpoint validation (internal/storage/delta/validation.go). */
module CheckpointValidation {
  import opened Wrappers
  import opened Actions
  import opened LogReplay

  datatype ValidationError =
    | MultipleProtocols
    | MultipleMetadata
    | MissingPath
    | NegativeSize(size: int)
    | RemoveFound
    | NoProtocol
    | NoMetadata
    | FileMissing(path: string)
    | SizeMismatch(path: string)
    | TimeMismatch(path: string)
    | UnexpectedFile(path: string)
    | ObjectMissing(path: string)
    | IntegrityUnknown

  // ---------------------------------------------------------------- what a good checkpoint is

  function CountProtocols(actions: seq<Action>): nat {
    if actions == [] then 0
    else CountProtocols(actions[..|actions| - 1]) + (if actions[|actions| - 1].ProtocolAction? then 1 else 0)
  }

  function CountMetadata(actions: seq<Action>): nat {
    if actions == [] then 0
    else CountMetadata(actions[..|actions| - 1]) + (if actions[|actions| - 1].MetadataAction? then 1 else 0)
  }

  function PlacesOf(actions: seq<Action>, wanted: Action -> bool): set<int> {
    set i | 0 <= i < |actions| && wanted(actions[i])
  }

  lemma PlacesGrow(actions: seq<Action>, wanted: Action -> bool)
    requires actions != []
    ensures |PlacesOf(actions, wanted)| ==
            |PlacesOf(actions[..|actions| - 1], wanted)| + (if wanted(actions[|actions| - 1]) then 1 else 0)
  {
    var before := PlacesOf(actions[..|actions| - 1], wanted);
    assert PlacesOf(actions, wanted) == before + if wanted(actions[|actions| - 1]) then {|actions| - 1} else {};
  }

  /** The counts are numbers of places in the list. */
  lemma {:induction false} CountsArePlaces(actions: seq<Action>)
    ensures CountProtocols(actions) == |PlacesOf(actions, (a: Action) => a.ProtocolAction?)|
    ensures CountMetadata(actions) == |PlacesOf(actions, (a: Action) => a.MetadataAction?)|
  {
    if actions != [] {
      CountsArePlaces(actions[..|actions| - 1]);
      PlacesGrow(actions, (a: Action) => a.ProtocolAction?);
      PlacesGrow(actions, (a: Action) => a.MetadataAction?);
    }
  }

  lemma OneElement(s: set<int>)
    ensures |s| == 1 <==> exists i :: s == {i}
  {
    if |s| == 1 {
      assert s != {};
      SomeElement(s);
      var i :| i in s;
      assert |s - {i}| == 0;
      assert s == {i};
    }
  }

  /** The list holds one protocol and one metadata, no Remove, and only Adds with a path and a size. */
  lemma WellStructuredExactlyWhen(actions: seq<Action>)
    ensures WellStructured(actions) <==>
            && (exists i :: PlacesOf(actions, (a: Action) => a.ProtocolAction?) == {i})
            && (exists i :: PlacesOf(actions, (a: Action) => a.MetadataAction?) == {i})
            && forall a :: a in actions ==> !a.RemoveAction? && (a.AddAction? ==> a.add.path != "" && a.add.size >= 0)
  {
    CountsArePlaces(actions);
    OneElement(PlacesOf(actions, (a: Action) => a.ProtocolAction?));
    OneElement(PlacesOf(actions, (a: Action) => a.MetadataAction?));
  }

  predicate GoodFile(f: Add) {
    f.path != "" && f.size >= 0
  }

  predicate OnlyGoodFiles(actions: seq<Action>) {
    forall i :: 0 <= i < |actions| ==> !actions[i].RemoveAction? && (actions[i].AddAction? ==> GoodFile(actions[i].add))
  }

  predicate WellStructured(actions: seq<Action>) {
    CountProtocols(actions) == 1 && CountMetadata(actions) == 1 && OnlyGoodFiles(actions)
  }

  /** The files a checkpoint lists: the last Add of each path. */
  function ListedFiles(actions: seq<Action>): map<string, Add> {
    if actions == [] then map[]
    else
      var before, last := ListedFiles(actions[..|actions| - 1]), actions[|actions| - 1];
      if last.AddAction? then before[last.add.path := last.add] else before
  }

  predicate SameFile(f: Add, g: Add) {
    f.size == g.size && f.modificationTime == g.modificationTime
  }

  predicate SameFiles(listed: map<string, Add>, expected: map<string, Add>) {
    listed.Keys == expected.Keys && forall path :: path in expected ==> SameFile(listed[path], expected[path])
  }

  predicate AllPresent(actions: seq<Action>, existsAt: string -> Option<bool>) {
    forall i :: 0 <= i < |actions| && actions[i].AddAction? ==> existsAt(actions[i].add.path) == Some(true)
  }

  // ---------------------------------------------------------------- the validator

  /** No error is recorded exactly for a well-structured action list. */
  method ValidateCheckpointStructure(actions: seq<Action>) returns (errors: seq<ValidationError>, fileCount: int)
    ensures errors == [] <==> WellStructured(actions)
    ensures fileCount == |set i | 0 <= i < |actions| && actions[i].AddAction?|
  {
    var hasProtocol, hasMetadata := false, false;
    errors := [];
    fileCount := 0;
    ghost var adds: set<int> := {};
    for i := 0 to |actions|
      invariant hasProtocol <==> CountProtocols(actions[..i]) > 0
      invariant hasMetadata <==> CountMetadata(actions[..i]) > 0
      invariant errors == [] <==>
                CountProtocols(actions[..i]) <= 1 && CountMetadata(actions[..i]) <= 1 && OnlyGoodFiles(actions[..i])
      invariant adds == (set k | 0 <= k < i && actions[k].AddAction?) && fileCount == |adds|
    {
      assert actions[..i + 1][..i] == actions[..i];
      match actions[i]
      case ProtocolAction(_) =>
        if hasProtocol {
          errors := errors + [MultipleProtocols];
        }
        hasProtocol := true;
      case MetadataAction(_) =>
        if hasMetadata {
          errors := errors + [MultipleMetadata];
        }
        hasMetadata := true;
      case AddAction(f) =>
        fileCount := fileCount + 1;
        adds := adds + {i};
        if f.path == "" {
          errors := errors + [MissingPath];
        }
        if f.size < 0 {
          errors := errors + [NegativeSize(f.size)];
        }
        assert !GoodFile(f) ==> !OnlyGoodFiles(actions[..i + 1]) by { assert actions[..i + 1][i] == actions[i]; }
      case RemoveAction(_) =>
        errors := errors + [RemoveFound];
        assert !OnlyGoodFiles(actions[..i + 1]) by { assert actions[..i + 1][i] == actions[i]; }
      case CommitInfoAction(_) =>
    }
    assert actions[..|actions|] == actions;
    if !hasProtocol {
      errors := errors + [NoProtocol];
    }
    if !hasMetadata {
      errors := errors + [NoMetadata];
    }
  }

  /** No error is recorded exactly when the listed files have the expected paths, sizes and times. */
  method ValidateAgainstSnapshot(actions: seq<Action>, expected: map<string, Add>) returns (errors: seq<ValidationError>)
    ensures errors == [] <==> SameFiles(ListedFiles(actions), expected)
  {
    var listed: map<string, Add> := map[];
    for i := 0 to |actions|
      invariant listed == ListedFiles(actions[..i])
    {
      assert actions[..i + 1][..i] == actions[..i];
      if actions[i].AddAction? {
        listed := listed[actions[i].add.path := actions[i].add];
      }
    }
    assert actions[..|actions|] == actions;
    var expectedErrors := CheckExpectedFiles(listed, expected);
    var listedErrors := CheckListedFiles(listed, expected);
    errors := expectedErrors + listedErrors;
  }

  /** Every expected file is listed with its size and time. */
  method CheckExpectedFiles(listed: map<string, Add>, expected: map<string, Add>) returns (errors: seq<ValidationError>)
    ensures errors == [] <==> forall path :: path in expected ==> path in listed && SameFile(listed[path], expected[path])
  {
    errors := [];
    var rest := expected.Keys;
    while rest != {}
      invariant rest <= expected.Keys
      invariant errors == [] <==>
                forall path :: path in expected.Keys - rest ==> path in listed && SameFile(listed[path], expected[path])
      decreases |rest|
    {
      var path :| path in rest;
      rest := rest - {path};
      if path !in listed {
        errors := errors + [FileMissing(path)];
      } else {
        if listed[path].size != expected[path].size {
          errors := errors + [SizeMismatch(path)];
        }
        if listed[path].modificationTime != expected[path].modificationTime {
          errors := errors + [TimeMismatch(path)];
        }
      }
    }
  }

  /** Every listed file is expected. */
  method CheckListedFiles(listed: map<string, Add>, expected: map<string, Add>) returns (errors: seq<ValidationError>)
    ensures errors == [] <==> forall path :: path in listed ==> path in expected
  {
    errors := [];
    var rest := listed.Keys;
    while rest != {}
      invariant rest <= listed.Keys
      invariant errors == [] <==> forall path :: path in listed.Keys - rest ==> path in expected
      decreases |rest|
    {
      var path :| path in rest;
      rest := rest - {path};
      if path !in expected {
        errors := errors + [UnexpectedFile(path)];
      }
    }
  }

  /** Stops at the first existence check that fails; its error becomes one more entry. */
  method ValidateFileIntegrity(actions: seq<Action>, existsAt: string -> Option<bool>) returns (errors: seq<ValidationError>)
    ensures errors == [] <==> AllPresent(actions, existsAt)
  {
    errors := [];
    for i := 0 to |actions|
      invariant errors == [] <==> forall k :: 0 <= k < i && actions[k].AddAction? ==> existsAt(actions[k].add.path) == Some(true)
    {
      if actions[i].AddAction? {
        var exists_ := existsAt(actions[i].add.path);
        if exists_.None? {
          return errors + [IntegrityUnknown];
        }
        if !exists_.value {
          errors := errors + [ObjectMissing(actions[i].add.path)];
        }
      }
    }
  }

  /** `file` is the checkpoint as read: absent when it cannot be downloaded or parsed. */
  method ValidateCheckpoint(file: Option<seq<Action>>, expected: map<string, Add>, existsAt: string -> Option<bool>)
    returns (ok: bool)
    ensures ok <==>
            && file.Some? && WellStructured(file.value)
            && SameFiles(ListedFiles(file.value), expected) && AllPresent(file.value, existsAt)
    ensures ok <==>
            && file.Some?
            && (exists i :: PlacesOf(file.value, (a: Action) => a.ProtocolAction?) == {i})
            && (exists i :: PlacesOf(file.value, (a: Action) => a.MetadataAction?) == {i})
            && (forall a :: a in file.value ==> !a.RemoveAction?)
            && (forall a :: a in file.value && a.AddAction? ==>
                  a.add.path != "" && a.add.size >= 0 && existsAt(a.add.path) == Some(true))
            && ListedFiles(file.value).Keys == expected.Keys
            && (forall path :: path in expected ==>
                  && ListedFiles(file.value)[path].size == expected[path].size
                  && ListedFiles(file.value)[path].modificationTime == expected[path].modificationTime)
  {
    if file.None? {
      return false;
    }
    var actions := file.value;
    WellStructuredExactlyWhen(actions);
    var structure, _ := ValidateCheckpointStructure(actions);
    var snapshot := ValidateAgainstSnapshot(actions, expected);
    var integrity := ValidateFileIntegrity(actions, existsAt);
    ok := |structure + snapshot + integrity| == 0;
  }

  // ---------------------------------------------------------------- what validation is worth

  lemma {:induction false} WithoutRemoves(actions: seq<Action>)
    requires forall i :: 0 <= i < |actions| ==> !actions[i].RemoveAction?
    ensures Replay(EMPTY, actions).files == ListedFiles(actions)
    ensures Replay(EMPTY, actions).protocol.Some? <==> CountProtocols(actions) > 0
    ensures Replay(EMPTY, actions).metadata.Some? <==> CountMetadata(actions) > 0
  {
    if actions != [] {
      WithoutRemoves(actions[..|actions| - 1]);
    }
  }

  /** A checkpoint that passes replays to a table with a protocol, a metadata, and exactly the
      expected paths, each with the expected size and modification time. */
  lemma PassedCheckpointReplays(actions: seq<Action>, expected: map<string, Add>)
    requires WellStructured(actions) && SameFiles(ListedFiles(actions), expected)
    ensures var s := Replay(EMPTY, actions);
            s.protocol.Some? && s.metadata.Some? && SameFiles(s.files, expected)
  {
    WithoutRemoves(actions);
  }

  lemma {:induction false} AddsOnly(head: seq<Action>, order: seq<Add>)
    ensures var all := head + AddActions(order);
            && CountProtocols(all) == CountProtocols(head)
            && CountMetadata(all) == CountMetadata(head)
            && (OnlyGoodFiles(all) <==> OnlyGoodFiles(head) && forall f :: f in order ==> GoodFile(f))
  {
    var all := head + AddActions(order);
    if order == [] {
      assert all == head;
    } else {
      var rest, last := order[..|order| - 1], order[|order| - 1];
      assert all[..|all| - 1] == head + AddActions(rest);
      assert all[|all| - 1] == AddAction(last);
      AddsOnly(head, rest);
      assert OnlyGoodFiles(all) <==> OnlyGoodFiles(head + AddActions(rest)) && GoodFile(last) by {
        assert all == (head + AddActions(rest)) + [AddAction(last)];
      }
      assert order == rest + [last];
    }
  }

  /** Conversely, the checkpoint of a table state raises no structure error exactly when the table
      is initialised and every active file has a path and no negative size; and it never raises a
      snapshot error, whatever the file order. */
  lemma OwnCheckpointPasses(s: TableState, order: seq<Add>)
    requires WellKeyed(s) && Lists(order, s.files)
    ensures WellStructured(CheckpointActions(s, order)) <==>
            s.protocol.Some? && s.metadata.Some? && forall path :: path in s.files ==> GoodFile(s.files[path])
    ensures ListedFiles(CheckpointActions(s, order)) == s.files
  {
    AddsOnly(CheckpointHead(s), order);
    HeadCounts(s);
    ListedIsReplayed(s, order);
  }

  lemma HeadCounts(s: TableState)
    ensures CountProtocols(CheckpointHead(s)) == if s.protocol.Some? then 1 else 0
    ensures CountMetadata(CheckpointHead(s)) == if s.metadata.Some? then 1 else 0
  {
    var head := CheckpointHead(s);
    var p := if s.protocol.Some? then [ProtocolAction(s.protocol.value)] else [];
    var m := if s.metadata.Some? then [MetadataAction(s.metadata.value)] else [];
    assert head == p + m;
    assert CountProtocols(head) == |p| && CountMetadata(head) == |m| by {
      if s.metadata.Some? {
        assert head[..|head| - 1] == p;
      } else {
        assert head == p;
      }
      assert p != [] ==> p[..0] == [];
      assert CountMetadata(p) == 0 && CountProtocols(p) == |p|;
    }
  }

  lemma ListedIsReplayed(s: TableState, order: seq<Add>)
    requires WellKeyed(s) && Lists(order, s.files)
    ensures ListedFiles(CheckpointActions(s, order)) == s.files
  {
    CheckpointRoundTrip(s, order);
    WithoutRemoves(CheckpointActions(s, order));
  }

  /** The parts of a file's Add that validation does not compare. */
  predicate SameUnchecked(f: Add, g: Add) {
    f.path == g.path && f.partitionValues == g.partitionValues && f.dataChange == g.dataChange && f.stats == g.stats && f.tags == g.tags
  }

  /** A checkpoint that passes replays to the expected state exactly when what validation does not
      compare agrees too: the protocol, the metadata, and the rest of each file's Add. */
  lemma PassedCheckpointIsExactExactlyWhen(actions: seq<Action>, t: TableState)
    requires WellStructured(actions) && SameFiles(ListedFiles(actions), t.files)
    ensures Replay(EMPTY, actions) == t <==>
            && LastProtocol(actions) == t.protocol
            && LastMetadata(actions) == t.metadata
            && forall path :: path in t.files ==> SameUnchecked(ListedFiles(actions)[path], t.files[path])
  {
    var s := Replay(EMPTY, actions);
    WithoutRemoves(actions);
    ReplayIsLastWriterWins(EMPTY, actions, "");
    if forall path :: path in t.files ==> SameUnchecked(s.files[path], t.files[path]) {
      forall path | path in t.files ensures s.files[path] == t.files[path] {
        assert SameFile(s.files[path], t.files[path]) && SameUnchecked(s.files[path], t.files[path]);
      }
      assert s.files == t.files;
    }
  }

  /** So the checkpoint of any state passes against every other state with the same paths, sizes and
      times, and replays to the wrong one: a different protocol, metadata, or unchecked file field
      is not seen. */
  lemma ValidationIsBlindToTheRest(s: TableState, t: TableState, order: seq<Add>)
    requires WellKeyed(s) && Lists(order, s.files) && s.protocol.Some? && s.metadata.Some?
    requires forall path :: path in s.files ==> GoodFile(s.files[path])
    requires SameFiles(s.files, t.files)
    ensures WellStructured(CheckpointActions(s, order)) && SameFiles(ListedFiles(CheckpointActions(s, order)), t.files)
    ensures Replay(EMPTY, CheckpointActions(s, order)) == t <==> s == t
  {
    OwnCheckpointPasses(s, order);
    CheckpointRoundTrip(s, order);
  }

  /** The states against which one good checkpoint wrongly passes: any other protocol, any other
      metadata, any other statistics of a file. */
  lemma WronglyPassedStates(s: TableState, order: seq<Add>, p: Option<Protocol>, m: Option<Metadata>)
    requires WellKeyed(s) && Lists(order, s.files) && s.protocol.Some? && s.metadata.Some?
    requires forall path :: path in s.files ==> GoodFile(s.files[path])
    requires p != s.protocol && m != s.metadata
    ensures var actions := CheckpointActions(s, order);
            WellStructured(actions) && forall t :: t in [s.(protocol := p), s.(metadata := m)] ==>
              SameFiles(ListedFiles(actions), t.files) && Replay(EMPTY, actions) != t
  {
    ValidationIsBlindToTheRest(s, s.(protocol := p), order);
    ValidationIsBlindToTheRest(s, s.(metadata := m), order);
  }

  lemma WronglyPassedStatistics(s: TableState, order: seq<Add>, path: string, stats: Stats)
    requires WellKeyed(s) && Lists(order, s.files) && s.protocol.Some? && s.metadata.Some?
    requires forall path :: path in s.files ==> GoodFile(s.files[path])
    requires path in s.files && stats != s.files[path].stats
    ensures var t := s.(files := s.files[path := s.files[path].(stats := stats)]);
            && SameFiles(ListedFiles(CheckpointActions(s, order)), t.files)
            && Replay(EMPTY, CheckpointActions(s, order)) != t
  {
    var t := s.(files := s.files[path := s.files[path].(stats := stats)]);
    assert t.files[path] != s.files[path];
    ValidationIsBlindToTheRest(s, t, order);
  }
}
