/** What a transaction log means: the fold that `Snapshot` runs, and the laws that make retries
    and checkpoints safe.  `Replay` is the fold; `LastOnPath`, `LastProtocol` and `LastMetadata`
    say independently what its result must be (the last action to speak about a thing decides). */
module LogReplay {
  import opened Wrappers
  import opened Actions

  datatype TableState = TableState(protocol: Option<Protocol>, metadata: Option<Metadata>, files: map<string, Add>)

  const EMPTY := TableState(None, None, map[])

  function Apply(s: TableState, a: Action): TableState {
    match a
    case ProtocolAction(p) => s.(protocol := Some(p))
    case MetadataAction(m) => s.(metadata := Some(m))
    case AddAction(f) => s.(files := s.files[f.path := f])
    case RemoveAction(r) => s.(files := s.files - {r.path})
    case CommitInfoAction(_) => s
  }

  function Replay(s: TableState, actions: seq<Action>): TableState {
    if actions == [] then s else Apply(Replay(s, actions[..|actions| - 1]), actions[|actions| - 1])
  }

  function Flatten(log: seq<seq<Action>>): seq<Action> {
    if log == [] then [] else Flatten(log[..|log| - 1]) + log[|log| - 1]
  }

  /** The state of a table whose log holds exactly these versions. */
  function StateOf(log: seq<seq<Action>>): TableState {
    Replay(EMPTY, Flatten(log))
  }

  // ---------------------------------------------------------------- the last word on each thing

  predicate Names(a: Action, path: string) {
    (a.AddAction? && a.add.path == path) || (a.RemoveAction? && a.remove.path == path)
  }

  /** The last action that adds or removes `path`. */
  function LastOnPath(actions: seq<Action>, path: string): Option<Action> {
    if actions == [] then None
    else
      var last := actions[|actions| - 1];
      if Names(last, path) then Some(last) else LastOnPath(actions[..|actions| - 1], path)
  }

  function LastProtocol(actions: seq<Action>): Option<Protocol> {
    if actions == [] then None
    else
      var last := actions[|actions| - 1];
      if last.ProtocolAction? then Some(last.protocol) else LastProtocol(actions[..|actions| - 1])
  }

  function LastMetadata(actions: seq<Action>): Option<Metadata> {
    if actions == [] then None
    else
      var last := actions[|actions| - 1];
      if last.MetadataAction? then Some(last.metadata) else LastMetadata(actions[..|actions| - 1])
  }

  function OrElse<T>(first: Option<T>, second: Option<T>): Option<T> {
    if first.Some? then first else second
  }

  function FileAt(s: TableState, path: string): Option<Add> {
    if path in s.files then Some(s.files[path]) else None
  }

  /** Action reconciliation: a path is decided by the last action that names it, and protocol and
      metadata by the last action of their kind; whatever no action mentions is unchanged. */
  lemma {:induction false} ReplayIsLastWriterWins(s: TableState, actions: seq<Action>, path: string)
    ensures Replay(s, actions).protocol == OrElse(LastProtocol(actions), s.protocol)
    ensures Replay(s, actions).metadata == OrElse(LastMetadata(actions), s.metadata)
    ensures FileAt(Replay(s, actions), path) ==
            match LastOnPath(actions, path)
            case None => FileAt(s, path)
            case Some(a) => if a.AddAction? then Some(a.add) else None
  {
    if actions != [] {
      ReplayIsLastWriterWins(s, actions[..|actions| - 1], path);
    }
  }

  lemma {:induction false} LastOfConcat(a: seq<Action>, b: seq<Action>, path: string)
    ensures LastOnPath(a + b, path) == OrElse(LastOnPath(b, path), LastOnPath(a, path))
    ensures LastProtocol(a + b) == OrElse(LastProtocol(b), LastProtocol(a))
    ensures LastMetadata(a + b) == OrElse(LastMetadata(b), LastMetadata(a))
  {
    if b == [] {
      assert a + b == a;
    } else {
      assert (a + b)[..|a + b| - 1] == a + b[..|b| - 1];
      LastOfConcat(a, b[..|b| - 1], path);
    }
  }

  lemma SameStateByFiles(s: TableState, t: TableState)
    requires s.protocol == t.protocol && s.metadata == t.metadata
    requires forall path :: FileAt(s, path) == FileAt(t, path)
    ensures s == t
  {
    forall path ensures path in s.files <==> path in t.files {
      assert FileAt(s, path) == FileAt(t, path);
    }
    forall path | path in s.files ensures s.files[path] == t.files[path] {
      assert FileAt(s, path) == FileAt(t, path);
    }
    assert s.files == t.files;
  }

  // ---------------------------------------------------------------- composition and idempotence

  lemma {:induction false} ReplayConcat(s: TableState, a: seq<Action>, b: seq<Action>)
    ensures Replay(s, a + b) == Replay(Replay(s, a), b)
  {
    if b == [] {
      assert a + b == a;
    } else {
      assert (a + b)[..|a + b| - 1] == a + b[..|b| - 1];
      ReplayConcat(s, a, b[..|b| - 1]);
    }
  }

  /** Replaying any action list a second time changes nothing, from any state. */
  lemma ReplayIdempotent(s: TableState, actions: seq<Action>)
    ensures Replay(Replay(s, actions), actions) == Replay(s, actions)
  {
    var once := Replay(s, actions);
    var twice := Replay(once, actions);
    forall path ensures FileAt(twice, path) == FileAt(once, path) {
      ReplayIsLastWriterWins(s, actions, path);
      ReplayIsLastWriterWins(once, actions, path);
    }
    ReplayIsLastWriterWins(s, actions, "");
    ReplayIsLastWriterWins(once, actions, "");
    SameStateByFiles(twice, once);
  }

  lemma {:induction false} FlattenConcat(a: seq<seq<Action>>, b: seq<seq<Action>>)
    ensures Flatten(a + b) == Flatten(a) + Flatten(b)
  {
    if b == [] {
      assert a + b == a;
    } else {
      assert (a + b)[..|a + b| - 1] == a + b[..|b| - 1];
      FlattenConcat(a, b[..|b| - 1]);
      ConcatAssociates(Flatten(a), Flatten(b[..|b| - 1]), b[|b| - 1]);
    }
  }

  lemma ConcatAssociates<T>(a: seq<T>, b: seq<T>, c: seq<T>)
    ensures a + b + c == a + (b + c)
  {
  }

  lemma StateOfSnoc(log: seq<seq<Action>>, version: seq<Action>)
    ensures StateOf(log + [version]) == Replay(StateOf(log), version)
  {
    assert (log + [version])[..|log|] == log;
    ReplayConcat(EMPTY, Flatten(log), version);
  }

  // ---------------------------------------------------------------- ambiguous commits

  /** One call of `Commit`: the caller's actions and one commit-info per copy that reached the
      store.  A write may land and still be reported as failed, so there can be any number. */
  datatype CommitRun = CommitRun(actions: seq<Action>, infos: seq<CommitInfo>)

  function Copies(run: CommitRun): (versions: seq<seq<Action>>)
    ensures |versions| == |run.infos|
    ensures forall i :: 0 <= i < |versions| ==> versions[i] == run.actions + [CommitInfoAction(run.infos[i])]
  {
    seq(|run.infos|, i requires 0 <= i < |run.infos| => run.actions + [CommitInfoAction(run.infos[i])])
  }

  /** The log a single writer leaves behind. */
  function WrittenLog(initial: seq<seq<Action>>, runs: seq<CommitRun>): seq<seq<Action>> {
    if runs == [] then initial
    else WrittenLog(initial, runs[..|runs| - 1]) + Copies(runs[|runs| - 1])
  }

  /** The fault-free log: each commit that landed at all was written exactly once. */
  function FaultFreeLog(initial: seq<seq<Action>>, runs: seq<CommitRun>): seq<seq<Action>> {
    if runs == [] then initial
    else
      var run := runs[|runs| - 1];
      FaultFreeLog(initial, runs[..|runs| - 1]) + (if run.infos == [] then [] else [Copies(run)[0]])
  }

  lemma CommitInfoIsInvisible(s: TableState, actions: seq<Action>, info: CommitInfo)
    ensures Replay(s, actions + [CommitInfoAction(info)]) == Replay(s, actions)
  {
    ReplayConcat(s, actions, [CommitInfoAction(info)]);
    assert Replay(Replay(s, actions), [CommitInfoAction(info)][..0]) == Replay(s, actions);
  }

  /** Any positive number of copies of one commit has the effect of a single copy. */
  lemma {:induction false} CopiesCollapse(log: seq<seq<Action>>, run: CommitRun)
    ensures StateOf(log + Copies(run)) ==
            if run.infos == [] then StateOf(log) else Replay(StateOf(log), run.actions)
    decreases |run.infos|
  {
    if run.infos == [] {
      assert log + Copies(run) == log;
    } else {
      var n := |run.infos|;
      var shorter := run.(infos := run.infos[..n - 1]);
      CopiesCollapse(log, shorter);
      assert log + Copies(run) == (log + Copies(shorter)) + [Copies(run)[n - 1]];
      StateOfSnoc(log + Copies(shorter), Copies(run)[n - 1]);
      CommitInfoIsInvisible(StateOf(log + Copies(shorter)), run.actions, run.infos[n - 1]);
      ReplayIdempotent(StateOf(log), run.actions);
    }
  }

  /** Retrying a commit whose write landed but was reported as failed is harmless: whatever
      writes landed twice, the table has the state of the run in which each landed once. */
  lemma {:induction false} AmbiguousRetriesAreHarmless(initial: seq<seq<Action>>, runs: seq<CommitRun>)
    ensures StateOf(WrittenLog(initial, runs)) == StateOf(FaultFreeLog(initial, runs))
  {
    if runs != [] {
      var before, run := runs[..|runs| - 1], runs[|runs| - 1];
      AmbiguousRetriesAreHarmless(initial, before);
      CopiesCollapse(WrittenLog(initial, before), run);
      var ideal := FaultFreeLog(initial, before);
      if run.infos == [] {
        assert ideal + [] == ideal;
      } else {
        StateOfSnoc(ideal, Copies(run)[0]);
        CommitInfoIsInvisible(StateOf(ideal), run.actions, run.infos[0]);
      }
    }
  }

  // ---------------------------------------------------------------- checkpoints

  /** Every file is stored under its own path; `Replay` keeps this from the empty table on. */
  predicate WellKeyed(s: TableState) {
    forall path :: path in s.files ==> s.files[path].path == path
  }

  lemma {:induction false} ReplayWellKeyed(s: TableState, actions: seq<Action>)
    requires WellKeyed(s)
    ensures WellKeyed(Replay(s, actions))
  {
    if actions != [] {
      ReplayWellKeyed(s, actions[..|actions| - 1]);
    }
  }

  /** `order` lists the files of the map, each once: what ranging over a Go map yields. */
  ghost predicate Lists(order: seq<Add>, files: map<string, Add>) {
    && (forall i :: 0 <= i < |order| ==> order[i].path in files && files[order[i].path] == order[i])
    && (forall path :: path in files ==> files[path] in order)
    && (forall i, j :: 0 <= i < j < |order| ==> order[i].path != order[j].path)
  }

  function AddActions(order: seq<Add>): (actions: seq<Action>)
    ensures |actions| == |order|
    ensures forall i :: 0 <= i < |order| ==> actions[i] == AddAction(order[i])
  {
    seq(|order|, i requires 0 <= i < |order| => AddAction(order[i]))
  }

  lemma ListsSnoc(order: seq<Add>, files: map<string, Add>, f: Add)
    requires Lists(order, files) && f.path !in files
    ensures Lists(order + [f], files[f.path := f])
    ensures AddActions(order + [f]) == AddActions(order) + [AddAction(f)]
  {
    var longer, more := order + [f], files[f.path := f];
    assert longer[|order|] == f;
    forall path | path in more ensures more[path] in longer {
      if path != f.path {
        assert files[path] in order;
      }
    }
  }

  function CheckpointHead(s: TableState): seq<Action> {
    (if s.protocol.Some? then [ProtocolAction(s.protocol.value)] else []) +
    (if s.metadata.Some? then [MetadataAction(s.metadata.value)] else [])
  }

  /** The action list of a checkpoint of `s`, with the files in the given order. */
  function CheckpointActions(s: TableState, order: seq<Add>): seq<Action> {
    CheckpointHead(s) + AddActions(order)
  }

  lemma {:induction false} LastOfAdds(order: seq<Add>, path: string)
    ensures LastProtocol(AddActions(order)) == None && LastMetadata(AddActions(order)) == None
    ensures match LastOnPath(AddActions(order), path)
            case None => forall f :: f in order ==> f.path != path
            case Some(a) => a.AddAction? && a.add in order && a.add.path == path
  {
    if order != [] {
      var rest := order[..|order| - 1];
      LastOfAdds(rest, path);
      assert AddActions(order)[..|order| - 1] == AddActions(rest);
    }
  }

  /** Flattening a table state into checkpoint actions, in any file order, loses nothing. */
  lemma CheckpointRoundTrip(s: TableState, order: seq<Add>)
    requires WellKeyed(s) && Lists(order, s.files)
    ensures Replay(EMPTY, CheckpointActions(s, order)) == s
  {
    ReplayConcat(EMPTY, CheckpointHead(s), AddActions(order));
    var head := Replay(EMPTY, CheckpointHead(s));
    assert head == TableState(s.protocol, s.metadata, map[]) by {
      var p := if s.protocol.Some? then [ProtocolAction(s.protocol.value)] else [];
      var m := if s.metadata.Some? then [MetadataAction(s.metadata.value)] else [];
      ReplayConcat(EMPTY, p, m);
      assert Replay(EMPTY, p) == EMPTY.(protocol := s.protocol);
    }
    var result := Replay(head, AddActions(order));
    forall path ensures FileAt(result, path) == FileAt(s, path) {
      LastOfAdds(order, path);
      ReplayIsLastWriterWins(head, AddActions(order), path);
    }
    LastOfAdds(order, "");
    ReplayIsLastWriterWins(head, AddActions(order), "");
    SameStateByFiles(result, s);
  }

  /** Checkpoint plus tail equals full replay, for every log, every checkpointed version and
      every order in which the checkpoint lists the files. */
  lemma CheckpointPlusTail(log: seq<seq<Action>>, c: nat, order: seq<Add>)
    requires c <= |log|
    requires Lists(order, StateOf(log[..c]).files)
    ensures Replay(EMPTY, CheckpointActions(StateOf(log[..c]), order) + Flatten(log[c..])) == StateOf(log)
  {
    var s := StateOf(log[..c]);
    ReplayWellKeyed(EMPTY, Flatten(log[..c]));
    ReplayConcat(EMPTY, CheckpointActions(s, order), Flatten(log[c..]));
    CheckpointRoundTrip(s, order);
    assert log == log[..c] + log[c..];
    FlattenConcat(log[..c], log[c..]);
    ReplayConcat(EMPTY, Flatten(log[..c]), Flatten(log[c..]));
  }
}
