/** Drift history (internal/validation/drift_detector.go): bounded per-field histories, and the
    keyed merge that loads a saved history into the one in memory. */
module DriftHistory {
  import opened Wrappers

  const NANOS_PER_SECOND := 1_000_000_000

  /** A snapshot: its time in nanoseconds, and its statistics. */
  datatype FieldSnapshot<Stats> = FieldSnapshot(timestamp: int, stats: Stats)

  /** `Timestamp.Unix()`: whole seconds, rounded down. */
  function Second<Stats>(s: FieldSnapshot<Stats>): int {
    s.timestamp / NANOS_PER_SECOND
  }

  lemma SecondIsWhole<Stats>(s: FieldSnapshot<Stats>)
    ensures Second(s) * 1_000_000_000 <= s.timestamp < (Second(s) + 1) * 1_000_000_000
  {
  }

  function Trimmed<Stats>(s: seq<FieldSnapshot<Stats>>, window: nat): seq<FieldSnapshot<Stats>> {
    if |s| > window then s[|s| - window..] else s
  }

  // ---------------------------------------------------------------- what a merge is

  ghost predicate Ascending<Stats>(s: seq<FieldSnapshot<Stats>>) {
    forall i, j :: 0 <= i < j < |s| ==> Second(s[i]) < Second(s[j])
  }

  ghost predicate At<Stats>(s: seq<FieldSnapshot<Stats>>, second: int) {
    exists i :: 0 <= i < |s| && Second(s[i]) == second
  }

  /** `x` is the last entry of `s` in its second. */
  ghost predicate LastAt<Stats>(s: seq<FieldSnapshot<Stats>>, x: FieldSnapshot<Stats>) {
    exists i :: 0 <= i < |s| && s[i] == x && forall j :: i < j < |s| ==> Second(s[j]) != Second(x)
  }

  /** `second` is older than everything in a full window. */
  ghost predicate PushedOut<Stats>(r: seq<FieldSnapshot<Stats>>, window: nat, second: int) {
    |r| == window && forall i :: 0 <= i < |r| ==> second < Second(r[i])
  }

  /** The entries of `r` are the newest seconds of `all`, at most `window` of them, strictly
      ascending, each represented by its last entry; a second is missing only when the window is
      full of newer ones. */
  ghost predicate IsMerge<Stats>(all: seq<FieldSnapshot<Stats>>, window: nat, r: seq<FieldSnapshot<Stats>>) {
    && |r| <= window
    && Ascending(r)
    && (forall i :: 0 <= i < |r| ==> LastAt(all, r[i]))
    && (forall k :: 0 <= k < |all| ==> At(r, Second(all[k])) || PushedOut(r, window, Second(all[k])))
  }

  lemma LastIsUnique<Stats>(s: seq<FieldSnapshot<Stats>>, x: FieldSnapshot<Stats>, y: FieldSnapshot<Stats>)
    requires LastAt(s, x) && LastAt(s, y) && Second(x) == Second(y)
    ensures x == y
  {
    var i :| 0 <= i < |s| && s[i] == x && forall j :: i < j < |s| ==> Second(s[j]) != Second(x);
    var j :| 0 <= j < |s| && s[j] == y && forall k :: j < k < |s| ==> Second(s[k]) != Second(y);
    assert i == j;
  }

  lemma LastOfConcat<Stats>(s: seq<FieldSnapshot<Stats>>, t: seq<FieldSnapshot<Stats>>, x: FieldSnapshot<Stats>)
    ensures LastAt(s + t, x) <==> LastAt(t, x) || (LastAt(s, x) && !At(t, Second(x)))
  {
    if LastAt(s + t, x) {
      var i :| 0 <= i < |s + t| && (s + t)[i] == x && forall j :: i < j < |s + t| ==> Second((s + t)[j]) != Second(x);
      if i >= |s| {
        assert t[i - |s|] == x;
        assert forall j :: i - |s| < j < |t| ==> t[j] == (s + t)[|s| + j];
      } else {
        assert s[i] == x;
        assert forall j :: i < j < |s| ==> (s + t)[j] == s[j];
        assert forall j :: 0 <= j < |t| ==> t[j] == (s + t)[|s| + j];
      }
    }
    if LastAt(t, x) {
      var i :| 0 <= i < |t| && t[i] == x && forall j :: i < j < |t| ==> Second(t[j]) != Second(x);
      assert (s + t)[|s| + i] == x;
    }
    if LastAt(s, x) && !At(t, Second(x)) {
      var i :| 0 <= i < |s| && s[i] == x && forall j :: i < j < |s| ==> Second(s[j]) != Second(x);
      assert (s + t)[i] == x;
      assert forall j :: i < j < |s| ==> (s + t)[j] == s[j];
      assert forall j :: |s| <= j < |s + t| ==> (s + t)[j] == t[j - |s|];
    }
  }

  lemma TakenIn<Stats>(all: seq<FieldSnapshot<Stats>>, window: nat, r: seq<FieldSnapshot<Stats>>, x: FieldSnapshot<Stats>)
    requires IsMerge(all, window, r) && LastAt(all, x)
    ensures At(r, Second(x)) || PushedOut(r, window, Second(x))
  {
    var i :| 0 <= i < |all| && all[i] == x && forall j :: i < j < |all| ==> Second(all[j]) != Second(x);
    assert Second(all[i]) == Second(x);
  }

  // ---------------------------------------------------------------- a merge is determined

  /** Two merges of the same entries agree on their last `k` entries. */
  lemma {:induction false} SuffixesAgree<Stats>(all: seq<FieldSnapshot<Stats>>, window: nat, r: seq<FieldSnapshot<Stats>>, r': seq<FieldSnapshot<Stats>>, k: nat)
    requires IsMerge(all, window, r) && IsMerge(all, window, r')
    requires k <= |r| && k <= |r'|
    ensures r[|r| - k..] == r'[|r'| - k..]
  {
    if k > 0 {
      SuffixesAgree(all, window, r, r', k - 1);
      NotBelow(all, window, r, r', k);
      NotBelow(all, window, r', r, k);
      LastIsUnique(all, r[|r| - k], r'[|r'| - k]);
      SuffixFromFirst(r, |r| - k);
      SuffixFromFirst(r', |r'| - k);
    }
  }

  lemma SuffixFromFirst<T>(s: seq<T>, i: nat)
    requires i < |s|
    ensures s[i..] == [s[i]] + s[i + 1..]
  {
  }

  lemma NotBelow<Stats>(all: seq<FieldSnapshot<Stats>>, window: nat, r: seq<FieldSnapshot<Stats>>, r': seq<FieldSnapshot<Stats>>, k: nat)
    requires IsMerge(all, window, r) && IsMerge(all, window, r')
    requires 0 < k <= |r| && k <= |r'|
    requires r[|r| - (k - 1)..] == r'[|r'| - (k - 1)..]
    ensures Second(r[|r| - k]) >= Second(r'[|r'| - k])
  {
    TakenIn(all, window, r, r'[|r'| - k]);
    assert forall i :: |r| - k < i < |r| ==> r[i] == r'[|r'| - |r| + i];
  }

  lemma NotAtBefore<Stats>(r: seq<FieldSnapshot<Stats>>, r': seq<FieldSnapshot<Stats>>, d: nat)
    requires Ascending(r') && 0 < d <= |r'| && r'[d..] == r
    ensures !At(r, Second(r'[d - 1]))
    ensures r != [] ==> Second(r'[d - 1]) < Second(r[0])
  {
    assert forall i :: 0 <= i < |r| ==> r[i] == r'[d + i];
  }

  /** A longer merge has no room to differ from a shorter one. */
  lemma SameLength<Stats>(all: seq<FieldSnapshot<Stats>>, window: nat, r: seq<FieldSnapshot<Stats>>, r': seq<FieldSnapshot<Stats>>)
    requires IsMerge(all, window, r) && IsMerge(all, window, r')
    ensures |r| >= |r'|
  {
    if |r| < |r'| {
      var d := |r'| - |r|;
      SuffixesAgree(all, window, r, r', |r|);
      assert r[0..] == r && r'[d..] == r;
      TakenIn(all, window, r, r'[d - 1]);
      NotAtBefore(r, r', d);
    }
  }

  /** The entries and the window determine the merge. */
  lemma MergeIsDetermined<Stats>(all: seq<FieldSnapshot<Stats>>, window: nat, r: seq<FieldSnapshot<Stats>>, r': seq<FieldSnapshot<Stats>>)
    requires IsMerge(all, window, r) && IsMerge(all, window, r')
    ensures r == r'
  {
    SameLength(all, window, r, r');
    SameLength(all, window, r', r);
    SuffixesAgree(all, window, r, r', |r|);
    assert r[|r| - |r|..] == r && r'[|r'| - |r|..] == r';
  }

  // ---------------------------------------------------------------- merging in turn

  ghost function Seconds<Stats>(s: seq<FieldSnapshot<Stats>>): set<int> {
    set i | 0 <= i < |s| :: Second(s[i])
  }

  lemma {:induction false} OneSecondEach<Stats>(s: seq<FieldSnapshot<Stats>>)
    requires Ascending(s)
    ensures |Seconds(s)| == |s|
  {
    if s != [] {
      var init, x := s[..|s| - 1], s[|s| - 1];
      assert s == init + [x];
      OneSecondEach(init);
      OneMoreSecond(init, x);
    }
  }

  lemma OneMoreSecond<Stats>(s: seq<FieldSnapshot<Stats>>, x: FieldSnapshot<Stats>)
    requires Ascending(s + [x])
    ensures Seconds(s + [x]) == Seconds(s) + {Second(x)} && Second(x) !in Seconds(s)
  {
    forall second ensures second in Seconds(s + [x]) <==> second in Seconds(s) || second == Second(x) {
      if second in Seconds(s) {
        var i :| 0 <= i < |s| && Second(s[i]) == second;
        assert (s + [x])[i] == s[i];
      }
      assert (s + [x])[|s|] == x;
    }
    forall i | 0 <= i < |s| ensures Second(s[i]) != Second(x) {
      assert (s + [x])[i] == s[i] && (s + [x])[|s|] == x;
    }
  }

  /** A full window whose seconds all survive into a merge fills that merge. */
  lemma FullWindowSurvives<Stats>(r1: seq<FieldSnapshot<Stats>>, r2: seq<FieldSnapshot<Stats>>)
    requires Ascending(r1) && Ascending(r2) && |r2| <= |r1|
    requires forall i :: 0 <= i < |r1| ==> At(r2, Second(r1[i]))
    ensures |r2| == |r1|
    ensures forall i :: 0 <= i < |r2| ==> At(r1, Second(r2[i]))
  {
    OneSecondEach(r1);
    OneSecondEach(r2);
    assert Seconds(r1) <= Seconds(r2);
    SameSizeSubset(Seconds(r1), Seconds(r2));
    assert forall i :: 0 <= i < |r2| ==> Second(r2[i]) in Seconds(r2);
  }

  lemma SameSizeSubset(a: set<int>, b: set<int>)
    requires a <= b && |b| <= |a|
    ensures a == b
  {
    assert |b - a| == |b| - |a|;
  }

  /** Merging `new1` and then `new2` is merging everything at once: what the first merge trimmed
      away stays outside the window. */
  lemma MergesInTurn<Stats>(existing: seq<FieldSnapshot<Stats>>, new1: seq<FieldSnapshot<Stats>>, new2: seq<FieldSnapshot<Stats>>,
                            window: nat, r1: seq<FieldSnapshot<Stats>>, r2: seq<FieldSnapshot<Stats>>)
    requires IsMerge(existing + new1, window, r1) && IsMerge(r1 + new2, window, r2)
    ensures IsMerge(existing + new1 + new2, window, r2)
  {
    var old', all := existing + new1, existing + new1 + new2;
    forall i | 0 <= i < |r2| ensures LastAt(all, r2[i]) {
      LastOfConcat(r1, new2, r2[i]);
      LastOfConcat(old', new2, r2[i]);
    }
    forall k | 0 <= k < |all| ensures At(r2, Second(all[k])) || PushedOut(r2, window, Second(all[k])) {
      if k >= |old'| {
        assert all[k] == (r1 + new2)[|r1| + k - |old'|];
      } else {
        assert all[k] == old'[k];
        StillOut(r1, new2, window, r2, Second(all[k]));
      }
    }
  }

  lemma StillOut<Stats>(r1: seq<FieldSnapshot<Stats>>, new2: seq<FieldSnapshot<Stats>>, window: nat, r2: seq<FieldSnapshot<Stats>>, second: int)
    requires IsMerge(r1 + new2, window, r2) && Ascending(r1)
    requires At(r1, second) || PushedOut(r1, window, second)
    ensures At(r2, second) || PushedOut(r2, window, second)
  {
    assert forall i :: 0 <= i < |r1| ==> (r1 + new2)[i] == r1[i];
    if !At(r1, second) && forall i :: 0 <= i < |r1| ==> At(r2, Second(r1[i])) {
      FullWindowSurvives(r1, r2);
    }
  }

  /** Merging the same snapshots a second time changes nothing. */
  lemma MergingAgainChangesNothing<Stats>(existing: seq<FieldSnapshot<Stats>>, new1: seq<FieldSnapshot<Stats>>,
                                          window: nat, r: seq<FieldSnapshot<Stats>>, again: seq<FieldSnapshot<Stats>>)
    requires IsMerge(existing + new1, window, r) && IsMerge(r + new1, window, again)
    ensures again == r
  {
    var once, twice := existing + new1, existing + new1 + new1;
    MergesInTurn(existing, new1, new1, window, r, again);
    forall i | 0 <= i < |r| ensures LastAt(twice, r[i]) {
      LastOfConcat(once, new1, r[i]);
      LastOfConcat(existing, new1, r[i]);
    }
    assert forall k :: 0 <= k < |once| ==> twice[k] == once[k];
    assert forall k :: |once| <= k < |twice| ==> twice[k] == once[k - |new1|];
    MergeIsDetermined(twice, window, r, again);
  }

  // ---------------------------------------------------------------- the merge, in place

  ghost predicate InTimeOrder<Stats>(s: seq<FieldSnapshot<Stats>>) {
    forall i, j :: 0 <= i < j < |s| ==> s[i].timestamp <= s[j].timestamp
  }

  ghost predicate OnePerSecond<Stats>(s: seq<FieldSnapshot<Stats>>) {
    forall i, j :: 0 <= i < j < |s| ==> Second(s[i]) != Second(s[j])
  }

  /** `s` holds the last entry of each second of `all`, once, in any order. */
  ghost predicate Represents<Stats>(all: seq<FieldSnapshot<Stats>>, s: seq<FieldSnapshot<Stats>>) {
    && OnePerSecond(s)
    && (forall i :: 0 <= i < |s| ==> LastAt(all, s[i]))
    && (forall k :: 0 <= k < |all| ==> At(s, Second(all[k])))
  }

  /** The newest entries of a sorted representation are the merge. */
  lemma TrimmingMerges<Stats>(all: seq<FieldSnapshot<Stats>>, s: seq<FieldSnapshot<Stats>>, window: nat)
    requires Represents(all, s) && InTimeOrder(s)
    ensures IsMerge(all, window, Trimmed(s, window))
  {
    var r := Trimmed(s, window);
    InTimeOrderAscends(s);
    forall i | 0 <= i < |r| ensures LastAt(all, r[i]) {
      assert r[i] == s[|s| - |r| + i];
    }
    forall k | 0 <= k < |all| ensures At(r, Second(all[k])) || PushedOut(r, window, Second(all[k])) {
      AtTrimmed(s, window, Second(all[k]));
    }
  }

  lemma InTimeOrderAscends<Stats>(s: seq<FieldSnapshot<Stats>>)
    requires InTimeOrder(s) && OnePerSecond(s)
    ensures Ascending(s)
  {
  }

  lemma AtTrimmed<Stats>(s: seq<FieldSnapshot<Stats>>, window: nat, second: int)
    requires Ascending(s) && At(s, second)
    ensures At(Trimmed(s, window), second) || PushedOut(Trimmed(s, window), window, second)
  {
    var r := Trimmed(s, window);
    var i :| 0 <= i < |s| && Second(s[i]) == second;
    var cut := |s| - |r|;
    if i >= cut {
      assert r[i - cut] == s[i];
    } else {
      assert forall k :: 0 <= k < |r| ==> r[k] == s[cut + k];
    }
  }

  method MergeSnapshots<Stats>(existing: seq<FieldSnapshot<Stats>>, new1: seq<FieldSnapshot<Stats>>, window: nat)
    returns (merged: seq<FieldSnapshot<Stats>>)
    ensures IsMerge(existing + new1, window, merged)
  {
    ghost var all := existing + new1;
    var byTime := KeyBySecond(existing, new1);
    var list := CollectValues(byTime);
    RepresentsKeyed(all, byTime, list);
    var a := new FieldSnapshot<Stats>[|list|](i requires 0 <= i < |list| => list[i]);
    assert a[..] == list;
    SortByTime(a);
    merged := a[..];
    PermutationRepresents(all, list, merged);
    TrimmingMerges(all, merged, window);
    if |merged| > window {
      merged := merged[|merged| - window..];
    }
  }

  /** The values of the map, in whatever order its keys come. */
  method CollectValues<Stats>(byTime: map<int, FieldSnapshot<Stats>>) returns (list: seq<FieldSnapshot<Stats>>)
    requires forall k :: k in byTime ==> Second(byTime[k]) == k
    ensures OnePerSecond(list)
    ensures forall i :: 0 <= i < |list| ==> Second(list[i]) in byTime && byTime[Second(list[i])] == list[i]
    ensures forall k :: k in byTime ==> byTime[k] in list
  {
    list := [];
    var pending := byTime.Keys;
    while pending != {}
      invariant pending <= byTime.Keys
      invariant OnePerSecond(list)
      invariant forall i :: 0 <= i < |list| ==> Second(list[i]) in byTime.Keys - pending && byTime[Second(list[i])] == list[i]
      invariant forall k :: k in byTime && k !in pending ==> byTime[k] in list
      decreases pending
    {
      SomeElement(pending);
      var k :| k in pending;
      pending := pending - {k};
      list := list + [byTime[k]];
    }
  }

  lemma RepresentsKeyed<Stats>(all: seq<FieldSnapshot<Stats>>, byTime: map<int, FieldSnapshot<Stats>>, list: seq<FieldSnapshot<Stats>>)
    requires Keyed(all, byTime) && OnePerSecond(list)
    requires forall i :: 0 <= i < |list| ==> Second(list[i]) in byTime && byTime[Second(list[i])] == list[i]
    requires forall k :: k in byTime ==> byTime[k] in list
    ensures Represents(all, list)
  {
    forall k | 0 <= k < |all| ensures At(list, Second(all[k])) {
      assert byTime[Second(all[k])] in list;
    }
  }

  lemma PermutationRepresents<Stats>(all: seq<FieldSnapshot<Stats>>, s: seq<FieldSnapshot<Stats>>, t: seq<FieldSnapshot<Stats>>)
    requires Represents(all, s) && multiset(s) == multiset(t)
    ensures Represents(all, t)
  {
    forall i | 0 <= i < |t| ensures LastAt(all, t[i]) {
      MembersMatch(s, t, t[i]);
    }
    forall i, j | 0 <= i < j < |t| ensures Second(t[i]) != Second(t[j]) {
      StillOnePerSecond(s, t, i, j);
    }
    forall k | 0 <= k < |all| ensures At(t, Second(all[k])) {
      var i :| 0 <= i < |s| && Second(s[i]) == Second(all[k]);
      MembersMatch(s, t, s[i]);
    }
  }

  lemma MembersMatch<T>(s: seq<T>, t: seq<T>, x: T)
    requires multiset(s) == multiset(t)
    ensures x in s <==> x in t
  {
    assert x in s <==> x in multiset(s);
    assert x in t <==> x in multiset(t);
  }

  lemma StillOnePerSecond<Stats>(s: seq<FieldSnapshot<Stats>>, t: seq<FieldSnapshot<Stats>>, i: nat, j: nat)
    requires OnePerSecond(s) && multiset(s) == multiset(t) && i < j < |t|
    ensures Second(t[i]) != Second(t[j])
  {
    MembersMatch(s, t, t[i]);
    MembersMatch(s, t, t[j]);
    OccursOnce(s, t[i]);
    assert t == t[..j] + [t[j]] + t[j + 1..];
    assert t[i] in t[..j];
  }

  lemma OccursOnce<Stats>(s: seq<FieldSnapshot<Stats>>, x: FieldSnapshot<Stats>)
    requires OnePerSecond(s) && x in s
    ensures multiset(s)[x] == 1
  {
    var i :| 0 <= i < |s| && s[i] == x;
    assert s == s[..i] + [x] + s[i + 1..];
    assert x !in s[..i] && x !in s[i + 1..];
  }

  /** New entries replace existing ones of the same second. */
  method KeyBySecond<Stats>(existing: seq<FieldSnapshot<Stats>>, new1: seq<FieldSnapshot<Stats>>)
    returns (byTime: map<int, FieldSnapshot<Stats>>)
    ensures Keyed(existing + new1, byTime)
  {
    byTime := map[];
    for i := 0 to |existing|
      invariant Keyed(existing[..i], byTime)
    {
      KeyedSnoc(existing[..i], existing[i], byTime);
      assert existing[..i] + [existing[i]] == existing[..i + 1];
      byTime := byTime[Second(existing[i]) := existing[i]];
    }
    assert existing[..|existing|] == existing + new1[..0];
    for i := 0 to |new1|
      invariant Keyed(existing + new1[..i], byTime)
    {
      KeyedSnoc(existing + new1[..i], new1[i], byTime);
      assert existing + new1[..i] + [new1[i]] == existing + new1[..i + 1];
      byTime := byTime[Second(new1[i]) := new1[i]];
    }
    assert existing + new1[..|new1|] == existing + new1;
  }

  ghost predicate Keyed<Stats>(all: seq<FieldSnapshot<Stats>>, byTime: map<int, FieldSnapshot<Stats>>) {
    && (forall k :: k in byTime ==> Second(byTime[k]) == k && LastAt(all, byTime[k]))
    && (forall i :: 0 <= i < |all| ==> Second(all[i]) in byTime)
  }

  lemma KeyedSnoc<Stats>(all: seq<FieldSnapshot<Stats>>, x: FieldSnapshot<Stats>, byTime: map<int, FieldSnapshot<Stats>>)
    requires Keyed(all, byTime)
    ensures Keyed(all + [x], byTime[Second(x) := x])
  {
    assert [x][0] == x;
    LastOfConcat(all, [x], x);
    forall k | k in byTime && k != Second(x) ensures LastAt(all + [x], byTime[k]) {
      LastOfConcat(all, [x], byTime[k]);
    }
  }

  /** The first `n` entries are in order and no later than the rest. */
  ghost predicate SortedUpTo<Stats>(s: seq<FieldSnapshot<Stats>>, n: nat) {
    forall p, q :: 0 <= p < n && p < q < |s| ==> s[p].timestamp <= s[q].timestamp
  }

  /** Exchange sort: after round `i`, the first `i + 1` entries are the earliest, in order. */
  method SortByTime<Stats>(a: array<FieldSnapshot<Stats>>)
    modifies a
    ensures multiset(a[..]) == multiset(old(a[..]))
    ensures InTimeOrder(a[..])
  {
    for i := 0 to a.Length
      invariant multiset(a[..]) == multiset(old(a[..]))
      invariant SortedUpTo(a[..], i)
    {
      BringEarliest(a, i);
    }
  }

  /** Entry `i` is no later than the entries after it and before `j`. */
  ghost predicate Earliest<Stats>(s: seq<FieldSnapshot<Stats>>, i: nat, j: nat)
    requires i < j <= |s|
  {
    forall q :: i < q < j ==> s[i].timestamp <= s[q].timestamp
  }

  /** One round: entry `i` is exchanged with every later entry that is earlier than it. */
  method BringEarliest<Stats>(a: array<FieldSnapshot<Stats>>, i: nat)
    requires i < a.Length && SortedUpTo(a[..], i)
    modifies a
    ensures multiset(a[..]) == multiset(old(a[..])) && SortedUpTo(a[..], i + 1)
  {
    for j := i + 1 to a.Length
      invariant multiset(a[..]) == multiset(old(a[..])) && SortedUpTo(a[..], i)
      invariant Earliest(a[..], i, j)
    {
      ghost var before := a[..];
      if a[i].timestamp > a[j].timestamp {
        a[i], a[j] := a[j], a[i];
        Exchanged(before, a[..], i, j);
      } else {
        assert Earliest(before, i, j + 1);
      }
    }
    RoundDone(a[..], i);
  }

  lemma Exchanged<Stats>(s: seq<FieldSnapshot<Stats>>, t: seq<FieldSnapshot<Stats>>, i: nat, j: nat)
    requires i < j < |s| && SortedUpTo(s, i) && Earliest(s, i, j) && s[i].timestamp > s[j].timestamp
    requires t == s[i := s[j]][j := s[i]]
    ensures multiset(t) == multiset(s) && SortedUpTo(t, i) && Earliest(t, i, j + 1)
  {
  }

  lemma RoundDone<Stats>(s: seq<FieldSnapshot<Stats>>, i: nat)
    requires i < |s| && SortedUpTo(s, i) && Earliest(s, i, |s|)
    ensures SortedUpTo(s, i + 1)
  {
  }

  /** A saved history that was adopted as it is stays as it is on the next load exactly when it was
      strictly ascending and within the window. */
  lemma AdoptedHistoryIsStableExactlyWhen<Stats>(saved: seq<FieldSnapshot<Stats>>, window: nat, again: seq<FieldSnapshot<Stats>>)
    requires IsMerge(saved + saved, window, again)
    ensures again == saved <==> Ascending(saved) && |saved| <= window
  {
    if Ascending(saved) && |saved| <= window {
      forall i | 0 <= i < |saved| ensures LastAt(saved + saved, saved[i]) {
        assert (saved + saved)[|saved| + i] == saved[i];
      }
      forall k | 0 <= k < |saved + saved| ensures At(saved, Second((saved + saved)[k])) {
        assert (saved + saved)[k] == saved[if k < |saved| then k else k - |saved|];
      }
      MergeIsDetermined(saved + saved, window, saved, again);
    }
  }

  // ---------------------------------------------------------------- the detector

  /** Appending to a trimmed history forgets nothing that the window would have kept. */
  lemma TrimmingEarlyIsHarmless<Stats>(s: seq<FieldSnapshot<Stats>>, t: seq<FieldSnapshot<Stats>>, window: nat)
    ensures Trimmed(Trimmed(s, window) + t, window) == Trimmed(s + t, window)
  {
    var early, whole := Trimmed(s, window) + t, s + t;
    var cut := |whole| - |early|;
    assert forall i :: 0 <= i < |early| ==> early[i] == whole[cut + i];
  }

  /** The field a history key names, if it is a key of the object. */
  function FieldOf(objectName: string, key: string): Option<string> {
    if |objectName| < |key| && key[..|objectName| + 1] == objectName + "." then Some(key[|objectName| + 1..]) else None
  }

  function HistoryOf<Stats>(history: map<string, seq<FieldSnapshot<Stats>>>, key: string): seq<FieldSnapshot<Stats>> {
    if key in history then history[key] else []
  }

  predicate Names(field: Option<string>, fields: set<string>) {
    field.Some? && field.value in fields
  }

  lemma FieldKeyRoundTrip(objectName: string, f: string)
    ensures FieldOf(objectName, objectName + "." + f) == Some(f)
    ensures forall key :: FieldOf(objectName, key) == Some(f) ==> key == objectName + "." + f
  {
    var whole := objectName + "." + f;
    assert whole[..|objectName| + 1] == objectName + ".";
    assert whole[|objectName| + 1..] == f;
    forall key | FieldOf(objectName, key) == Some(f) ensures key == whole {
      assert key == key[..|objectName| + 1] + key[|objectName| + 1..];
    }
  }

  class DriftDetector<Stats> {
    const window: nat
    var history: map<string, seq<FieldSnapshot<Stats>>>

    constructor (window: nat)
      ensures this.window == window && history == map[]
    {
      this.window, history := window, map[];
    }

    /** Appends one snapshot to the history of each field, whatever the order of the fields. */
    method UpdateStats(objectName: string, now: int, fieldStats: map<string, Stats>)
      modifies this
      ensures forall key :: Names(FieldOf(objectName, key), fieldStats.Keys) ==>
                && key in history
                && history[key] == Trimmed(HistoryOf(old(history), key)
                                           + [FieldSnapshot(now, fieldStats[FieldOf(objectName, key).value])], window)
      ensures forall key :: !Names(FieldOf(objectName, key), fieldStats.Keys) ==>
                && HistoryOf(history, key) == HistoryOf(old(history), key)
                && (key in history <==> key in old(history) || key == objectName)
    {
      if objectName !in history {
        history := history[objectName := []];
      }
      ghost var initial := history;
      var pending := fieldStats.Keys;
      while pending != {}
        invariant pending <= fieldStats.Keys
        invariant forall key :: Names(FieldOf(objectName, key), fieldStats.Keys - pending) ==>
                    && key in history
                    && history[key] == Trimmed(HistoryOf(initial, key)
                                               + [FieldSnapshot(now, fieldStats[FieldOf(objectName, key).value])], window)
        invariant forall key :: !Names(FieldOf(objectName, key), fieldStats.Keys - pending) ==>
                    && HistoryOf(history, key) == HistoryOf(initial, key)
                    && (key in history <==> key in initial)
        decreases pending
      {
        var f :| f in pending;
        pending := pending - {f};
        var key := objectName + "." + f;
        FieldKeyRoundTrip(objectName, f);
        var snapshots := HistoryOf(history, key) + [FieldSnapshot(now, fieldStats[f])];
        history := history[key := Trimmed(snapshots, window)];
      }
    }

    /** Merges a saved history into the one in memory; fields not in memory adopt the saved one. */
    method LoadFieldSnapshots(saved: map<string, seq<FieldSnapshot<Stats>>>)
      modifies this
      ensures history.Keys == old(history).Keys + saved.Keys
      ensures forall key :: key in saved && key in old(history) ==>
                IsMerge(old(history)[key] + saved[key], window, history[key])
      ensures forall key :: key in saved && key !in old(history) ==> history[key] == saved[key]
      ensures forall key :: key in old(history) && key !in saved ==> history[key] == old(history)[key]
    {
      var pending := saved.Keys;
      while pending != {}
        invariant pending <= saved.Keys
        invariant history.Keys == old(history).Keys + (saved.Keys - pending)
        invariant forall key :: key in saved && key !in pending && key in old(history) ==>
                    IsMerge(old(history)[key] + saved[key], window, history[key])
        invariant forall key :: key in saved && key !in pending && key !in old(history) ==> history[key] == saved[key]
        invariant forall key :: key in old(history) && (key !in saved || key in pending) ==> history[key] == old(history)[key]
        decreases pending
      {
        var key :| key in pending;
        pending := pending - {key};
        if key in history {
          var merged := MergeSnapshots(history[key], saved[key], window);
          history := history[key := merged];
        } else {
          history := history[key := saved[key]];
        }
      }
    }
  }
}
