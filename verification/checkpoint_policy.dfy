/** When a checkpoint is due (internal/storage/delta/checkpoint_manager.go, MaybeCheckpoint and
    shouldCreateCheckpoint), and how long the tail of unreplayed versions can get. */
module CheckpointPolicy {
  import opened Wrappers

  datatype Config = Config(frequency: int, sizeThresholdMB: int, adaptiveMode: bool)

  predicate Positive(config: Config) {
    config.frequency >= 1 && config.sizeThresholdMB >= 1
  }

  /** The defaults `NewCheckpointManager` puts in for non-positive settings. */
  function WithDefaults(config: Config): (c: Config)
    ensures Positive(c) && c.adaptiveMode == config.adaptiveMode
    ensures config.frequency > 0 ==> c.frequency == config.frequency
    ensures config.sizeThresholdMB > 0 ==> c.sizeThresholdMB == config.sizeThresholdMB
    ensures config.frequency <= 0 ==> c.frequency == 10
    ensures config.sizeThresholdMB <= 0 ==> c.sizeThresholdMB == 128
  {
    config.(frequency := if config.frequency <= 0 then 10 else config.frequency,
            sizeThresholdMB := if config.sizeThresholdMB <= 0 then 128 else config.sizeThresholdMB)
  }

  const REPLAY_LIMIT := 50

  /** `shouldCreateCheckpoint`, given the marker it read and the data volume it estimated. */
  predicate Due(config: Config, marker: Option<int>, volumeMB: int, version: int)
    requires Positive(config)
  {
    if !config.adaptiveMode || marker.None? then version % config.frequency == 0
    else
      var since := version - marker.value;
      || since >= 2 * config.frequency
      || (since >= config.frequency && (volumeMB >= config.sizeThresholdMB || since >= REPLAY_LIMIT))
  }

  /** The versions a reader must replay on top of the newest checkpoint are fewer than Frequency
      in fixed mode and fewer than 2 * Frequency in adaptive mode. */
  predicate TailBounded(config: Config, marker: Option<int>, version: int)
    requires Positive(config)
  {
    match marker
    case None => 0 <= version < config.frequency
    case Some(m) =>
      && 0 <= version - m < (if config.adaptiveMode then 2 * config.frequency else config.frequency)
      && (!config.adaptiveMode ==> m % config.frequency == 0)
  }

  lemma NextMultiple(m: int, f: int)
    requires f >= 1 && m % f == 0
    ensures (m + f) % f == 0
  {
    var q, r := (m + f) / f, (m + f) % f;
    var k := q - m / f - 1;
    assert k * f == q * f - (m / f) * f - f == -r;
    assert k >= 1 ==> k * f >= f;
    assert k <= -1 ==> k * f <= -f;
  }

  /** One version later the bound still holds, whatever the volume estimate was. */
  lemma TailStep(config: Config, marker: Option<int>, volumeMB: int, version: int)
    requires Positive(config) && version >= 1
    requires TailBounded(config, marker, version - 1)
    ensures TailBounded(config, if Due(config, marker, volumeMB, version) then Some(version) else marker, version)
  {
    if !Due(config, marker, volumeMB, version) && !config.adaptiveMode && marker.Some? {
      NextMultiple(marker.value, config.frequency);
    }
  }

  /** The marker after `MaybeCheckpoint` ran successfully on versions 0..n with these estimates. */
  function MarkerAfter(config: Config, volumes: int -> int, n: nat): Option<int>
    requires Positive(config)
  {
    if n == 0 then None
    else
      var before := MarkerAfter(config, volumes, n - 1);
      if Due(config, before, volumes(n), n) then Some(n) else before
  }

  /** Over every run in which no version is skipped, for all volume estimates. */
  lemma {:induction false} BoundedReplayTail(config: Config, volumes: int -> int, n: nat)
    requires Positive(config)
    ensures TailBounded(config, MarkerAfter(config, volumes, n), n)
  {
    if n > 0 {
      BoundedReplayTail(config, volumes, n - 1);
      TailStep(config, MarkerAfter(config, volumes, n - 1), volumes(n), n);
    }
  }

  /** The marker when only some versions are checked: a commit that landed unacknowledged, or whose
      checkpoint failed, skips its check. */
  function MarkerWithSkips(config: Config, volumes: int -> int, checked: int -> bool, n: nat): Option<int>
    requires Positive(config)
  {
    if n == 0 then None
    else
      var before := MarkerWithSkips(config, volumes, checked, n - 1);
      if checked(n) && Due(config, before, volumes(n), n) then Some(n) else before
  }

  /** How many versions up to this one were skipped in a row. */
  function SkippedInARow(checked: int -> bool, n: nat): nat {
    if n == 0 || checked(n) then 0 else SkippedInARow(checked, n - 1) + 1
  }

  /** With skipped versions: in adaptive mode the tail after a checkpoint exceeds 2 * Frequency by no
      more than the versions skipped in a row; in fixed mode, and before the first checkpoint, the
      tail goes on only over multiples of Frequency that were skipped. */
  lemma {:induction false} ReplayTailWithSkips(config: Config, volumes: int -> int, checked: int -> bool, n: nat)
    requires Positive(config)
    ensures var marker := MarkerWithSkips(config, volumes, checked, n);
            var from := if marker.None? then 0 else marker.value;
            && 0 <= from <= n
            && (marker.Some? && config.adaptiveMode ==> n - from < 2 * config.frequency + SkippedInARow(checked, n))
            && (marker.None? || !config.adaptiveMode ==>
                  forall k :: from < k <= n && k % config.frequency == 0 ==> !checked(k))
  {
    if n > 0 {
      ReplayTailWithSkips(config, volumes, checked, n - 1);
    }
  }

  /** In fixed mode the newest checkpoint is of the last multiple of Frequency. */
  lemma {:induction false} FixedMarkerIsTheLastMultiple(config: Config, volumes: int -> int, n: nat)
    requires Positive(config) && !config.adaptiveMode
    ensures MarkerAfter(config, volumes, n) == if n < config.frequency then None else Some(n - n % config.frequency)
  {
    if n > 0 {
      FixedMarkerIsTheLastMultiple(config, volumes, n - 1);
      OneMore(n, config.frequency);
    }
  }

  lemma OneMore(n: nat, f: int)
    requires n > 0 && f >= 1
    ensures n % f == 0 || n % f == (n - 1) % f + 1
    ensures n < f ==> n % f == n
  {
    if n % f != 0 {
      Quotient(n - 1, f, n / f, n % f - 1);
    }
  }

  lemma Quotient(n: int, f: int, q: int, r: int)
    requires f >= 1 && n == q * f + r && 0 <= r < f
    ensures n % f == r
  {
    var k := n / f - q;
    assert k * f == (n / f) * f - q * f == r - n % f;
    assert k >= 1 ==> k * f >= f;
    assert k <= -1 ==> k * f <= -f;
  }

  /** In adaptive mode, the first checkpoint is of the first multiple of Frequency.  From then on the
      next one comes at the first version that is Frequency or more after it and finds a volume of at
      least the threshold, or 50 versions, or twice Frequency. */
  lemma {:induction false} AdaptiveMarkerMovesExactlyWhen(config: Config, volumes: int -> int, n: nat)
    requires Positive(config) && config.adaptiveMode && n > 0
    ensures var before, after := MarkerAfter(config, volumes, n - 1), MarkerAfter(config, volumes, n);
            && (before.None? <==> n <= config.frequency)
            && (before.None? ==> after == if n == config.frequency then Some(n) else None)
            && (before.Some? ==>
                  var tail := n - before.value;
                  && 0 < tail <= 2 * config.frequency
                  && after == if tail >= config.frequency
                                 && (volumes(n) >= config.sizeThresholdMB || tail >= 50 || tail >= 2 * config.frequency)
                              then Some(n) else before)
  {
    BoundedReplayTail(config, volumes, n - 1);
    if n > 1 {
      AdaptiveMarkerMovesExactlyWhen(config, volumes, n - 1);
    }
    OneMore(n, config.frequency);
    if n > config.frequency {
      assert MarkerAfter(config, volumes, n - 1).Some?;
    } else if n == config.frequency {
      Quotient(n, config.frequency, 1, 0);
    }
  }
}
