/** The key codec of the log directory (internal/storage/delta/log.go, checkpoint_manager.go):
    zero-padded version names, `strconv.ParseInt`, and the file-name tests of `ListVersions`. */
module Keys {
  import opened Wrappers

  const INT64_LIMIT := 0x8000_0000_0000_0000

  // ---------------------------------------------------------------- decimal numerals

  predicate IsDigit(c: char) {
    '0' <= c <= '9'
  }

  function DigitChar(d: nat): (c: char)
    requires d < 10
    ensures IsDigit(c) && (c as int) - ('0' as int) == d
  {
    ('0' as int + d) as char
  }

  predicate AllDigits(s: string) {
    forall i :: 0 <= i < |s| ==> IsDigit(s[i])
  }

  /** The value of a numeral, most significant digit first. */
  function Value(s: string): nat
    requires AllDigits(s)
  {
    if s == [] then 0
    else 10 * Value(s[..|s| - 1]) + (s[|s| - 1] as int - '0' as int)
  }

  function Digits(v: nat): (s: string)
    ensures AllDigits(s) && s != []
    ensures Value(s) == v
  {
    if v < 10 then [DigitChar(v)]
    else
      var front := Digits(v / 10);
      assert (front + [DigitChar(v % 10)])[..|front|] == front;
      front + [DigitChar(v % 10)]
  }

  function Zeros(n: nat): (s: string)
    ensures AllDigits(s) && |s| == n
  {
    if n == 0 then [] else ['0'] + Zeros(n - 1)
  }

  lemma {:induction false} LeadingZeroIsNothing(s: string)
    requires AllDigits(s)
    ensures Value(['0'] + s) == Value(s)
  {
    if s == [] {
      assert (['0'] + s)[..0] == [];
    } else {
      assert (['0'] + s)[..|s|] == ['0'] + s[..|s| - 1];
      LeadingZeroIsNothing(s[..|s| - 1]);
    }
  }

  lemma {:induction false} PaddingKeepsValue(n: nat, s: string)
    requires AllDigits(s)
    ensures AllDigits(Zeros(n) + s) && Value(Zeros(n) + s) == Value(s)
  {
    if n == 0 {
      assert Zeros(0) + s == s;
    } else {
      PaddingKeepsValue(n - 1, s);
      assert Zeros(n) + s == ['0'] + (Zeros(n - 1) + s);
      LeadingZeroIsNothing(Zeros(n - 1) + s);
    }
  }

  /** The verb `%020d` on a version number: at least twenty characters, padded with zeros. */
  function PaddedVersion(v: nat): (s: string)
    ensures AllDigits(s) && |s| >= 20
    ensures Value(s) == v
  {
    var digits := Digits(v);
    var zeros := Zeros(if |digits| < 20 then 20 - |digits| else 0);
    PaddingKeepsValue(|zeros|, digits);
    zeros + digits
  }

  /** `strconv.ParseInt(s, 10, 64)`: an optional sign, at least one digit, and nothing out of range. */
  function ParseInt(s: string): Option<int> {
    var negative := s != [] && s[0] == '-';
    var numeral := if s != [] && (s[0] == '-' || s[0] == '+') then s[1..] else s;
    if numeral == [] || !AllDigits(numeral) then None
    else
      var magnitude: int := Value(numeral);
      if negative then (if magnitude > INT64_LIMIT then None else Some(-magnitude))
      else (if magnitude >= INT64_LIMIT then None else Some(magnitude))
  }

  lemma {:induction false} DigitsAreFew(v: nat, bound: nat, n: nat)
    requires v < bound && bound == PowerOfTen(n) && n >= 1
    ensures |Digits(v)| <= n
  {
    if v >= 10 {
      assert PowerOfTen(n) == 10 * PowerOfTen(n - 1);
      assert n > 1;
      DigitsAreFew(v / 10, PowerOfTen(n - 1), n - 1);
    }
  }

  function PowerOfTen(n: nat): nat {
    if n == 0 then 1 else 10 * PowerOfTen(n - 1)
  }

  // ---------------------------------------------------------------- file names

  predicate HasPrefix(s: string, prefix: string) {
    |prefix| <= |s| && s[..|prefix|] == prefix
  }

  predicate HasSuffix(s: string, suffix: string) {
    |suffix| <= |s| && s[|s| - |suffix|..] == suffix
  }

  /** The part after the last slash; the whole key when there is none. */
  function BaseName(key: string): (base: string)
    ensures '/' !in base
  {
    if key == [] then []
    else if key[|key| - 1] == '/' then []
    else BaseName(key[..|key| - 1]) + [key[|key| - 1]]
  }

  /** The part before the first dot: the first element of a split at ".". */
  function BeforeDot(s: string): (stem: string)
    ensures '.' !in stem
  {
    if s == [] || s[0] == '.' then [] else [s[0]] + BeforeDot(s[1..])
  }

  /** A log prefix as `Layout.DeltaLogPrefix` builds them: it ends at a directory boundary. */
  predicate IsDirectory(prefix: string) {
    prefix == [] || prefix[|prefix| - 1] == '/'
  }

  function DeltaLogPrefix(source: string, objectName: string): (prefix: string)
    ensures IsDirectory(prefix)
  {
    "data/" + source + "/" + objectName + "/_delta_log/"
  }

  function VersionKey(prefix: string, v: nat): string {
    prefix + PaddedVersion(v) + ".json"
  }

  function CheckpointKey(prefix: string, v: nat): string {
    prefix + PaddedVersion(v) + ".checkpoint.json"
  }

  function MarkerKey(prefix: string): string {
    prefix + "_last_checkpoint"
  }

  /** What the loop of `ListVersions` makes of one key: a version, or nothing. */
  function VersionOfKey(key: string): Option<int> {
    var base := BaseName(key);
    if !HasSuffix(base, ".json") || HasPrefix(base, "_") then None
    else ParseInt(base[..|base| - |".json"|])
  }

  /** `extractVersionFromCheckpointKey`. */
  function VersionOfCheckpointKey(key: string): Option<int> {
    ParseInt(BeforeDot(BaseName(key)))
  }

  // ---------------------------------------------------------------- the codec

  lemma {:induction false} BaseNameOfFile(prefix: string, name: string)
    requires IsDirectory(prefix) && '/' !in name
    ensures BaseName(prefix + name) == name
  {
    if name == [] {
      assert prefix + name == prefix;
    } else {
      var last := |prefix + name| - 1;
      assert (prefix + name)[..last] == prefix + name[..|name| - 1];
      BaseNameOfFile(prefix, name[..|name| - 1]);
    }
  }

  lemma {:induction false} BeforeDotOfStem(stem: string, rest: string)
    requires '.' !in stem
    ensures BeforeDot(stem + "." + rest) == stem
  {
    if stem != [] {
      assert (stem + "." + rest)[1..] == stem[1..] + "." + rest;
      BeforeDotOfStem(stem[1..], rest);
    }
  }

  lemma ParseIntOfNumeral(s: string)
    requires AllDigits(s) && s != [] && Value(s) < INT64_LIMIT
    ensures ParseInt(s) == Some(Value(s))
  {
    assert IsDigit(s[0]);
  }

  /** Decoding the name of a log entry returns its version. */
  lemma VersionKeyRoundTrip(prefix: string, v: nat)
    requires IsDirectory(prefix) && v < INT64_LIMIT
    ensures VersionOfKey(VersionKey(prefix, v)) == Some(v)
  {
    var stem := PaddedVersion(v);
    var base := stem + ".json";
    assert VersionKey(prefix, v) == prefix + base;
    BaseNameOfFile(prefix, base);
    assert base[|base| - 5..] == ".json";
    assert base[..1] != "_" by { assert IsDigit(base[0]); }
    assert base[..|base| - 5] == stem;
    ParseIntOfNumeral(stem);
  }

  /** A checkpoint file is never mistaken for a log entry, whatever its version. */
  lemma CheckpointKeyIsNoVersion(prefix: string, v: nat)
    requires IsDirectory(prefix)
    ensures VersionOfKey(CheckpointKey(prefix, v)) == None
  {
    var stem := PaddedVersion(v);
    var base := stem + ".checkpoint.json";
    assert CheckpointKey(prefix, v) == prefix + base;
    BaseNameOfFile(prefix, base);
    assert base[|base| - 5..] == ".json";
    var name := base[..|base| - 5];
    assert name[0] == stem[0] && name[|stem|] == '.';
    assert IsDigit(name[0]);
  }

  lemma MarkerKeyIsNoVersion(prefix: string)
    requires IsDirectory(prefix)
    ensures VersionOfKey(MarkerKey(prefix)) == None
  {
    BaseNameOfFile(prefix, "_last_checkpoint");
  }

  /** The checkpoint manager's decoder inverts its key format. */
  lemma CheckpointKeyRoundTrip(prefix: string, v: nat)
    requires IsDirectory(prefix) && v < INT64_LIMIT
    ensures VersionOfCheckpointKey(CheckpointKey(prefix, v)) == Some(v)
  {
    var stem := PaddedVersion(v);
    assert CheckpointKey(prefix, v) == prefix + (stem + "." + "checkpoint.json");
    BaseNameOfFile(prefix, stem + "." + "checkpoint.json");
    BeforeDotOfStem(stem, "checkpoint.json");
    ParseIntOfNumeral(stem);
  }

  lemma MarkerKeyIsNoCheckpoint(prefix: string)
    requires IsDirectory(prefix)
    ensures VersionOfCheckpointKey(MarkerKey(prefix)) == None
  {
    BaseNameOfFile(prefix, "_last_checkpoint");
    assert BeforeDot("_last_checkpoint")[0] == '_';
  }

  /** Log entries, checkpoints and the marker never share a key, and each kind is injective. */
  lemma KeysAreApart(prefix: string, v: nat, w: nat)
    requires IsDirectory(prefix) && v < INT64_LIMIT && w < INT64_LIMIT
    ensures VersionKey(prefix, v) == VersionKey(prefix, w) ==> v == w
    ensures CheckpointKey(prefix, v) == CheckpointKey(prefix, w) ==> v == w
    ensures VersionKey(prefix, v) != CheckpointKey(prefix, w)
    ensures VersionKey(prefix, v) != MarkerKey(prefix)
    ensures CheckpointKey(prefix, v) != MarkerKey(prefix)
  {
    VersionKeyRoundTrip(prefix, v);
    VersionKeyRoundTrip(prefix, w);
    CheckpointKeyRoundTrip(prefix, v);
    CheckpointKeyRoundTrip(prefix, w);
    CheckpointKeyIsNoVersion(prefix, w);
    MarkerKeyIsNoVersion(prefix);
    MarkerKeyIsNoCheckpoint(prefix);
  }

  /** The names in a log directory: twenty digits and `.json`, twenty digits and `.checkpoint.json`, and
      `_last_checkpoint`. */
  lemma NamesInTheLog(prefix: string, v: nat)
    requires v < INT64_LIMIT
    ensures exists digits :: |digits| == 20 && AllDigits(digits) && Value(digits) == v
                             && VersionKey(prefix, v) == prefix + digits + ".json"
                             && CheckpointKey(prefix, v) == prefix + digits + ".checkpoint.json"
    ensures MarkerKey(prefix) == prefix + "_last_checkpoint"
  {
    TwentyDigits(v);
    var digits := PaddedVersion(v);
    assert VersionKey(prefix, v) == prefix + digits + ".json";
  }

  /** Every version number that fits takes exactly twenty characters. */
  lemma TwentyDigits(v: nat)
    requires v < INT64_LIMIT
    ensures |PaddedVersion(v)| == 20
  {
    assert PowerOfTen(20) == 10_000_000_000 * 10_000_000_000 by {
      assert PowerOfTen(10) == 10_000_000_000;
      assert PowerOfTen(20) == 10_000_000_000 * PowerOfTen(10);
    }
    DigitsAreFew(v, PowerOfTen(20), 20);
  }
}
