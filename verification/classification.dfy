/** Which errors are retried (internal/retry/policy.go): a case-insensitive search of the message
    for fixed patterns, and what it makes of a breaker's own rejection. */
module ErrorClassification {
  import opened CircuitBreakers

  /** The two context errors are compared by identity, every other error by its message. */
  datatype Error = NoError | ContextCanceled | DeadlineExceeded | Message(text: string)

  function LowerChar(c: char): char {
    if 'A' <= c <= 'Z' then c + 32 as char else c
  }

  function Lower(s: string): string {
    seq(|s|, i requires 0 <= i < |s| => LowerChar(s[i]))
  }

  method ToLower(s: string) returns (lower: string)
    ensures lower == Lower(s)
    ensures |lower| == |s| && forall i :: 0 <= i < |s| ==> lower[i] == if 'A' <= s[i] <= 'Z' then (s[i] as int + 32) as char else s[i]
  {
    var result := new char[|s|];
    for i := 0 to |s|
      invariant result[..i] == Lower(s)[..i]
    {
      if 'A' <= s[i] <= 'Z' {
        result[i] := s[i] + 32 as char;
      } else {
        result[i] := s[i];
      }
      assert result[..i + 1] == result[..i] + [result[i]];
    }
    lower := result[..];
    assert result[..] == result[..|s|];
  }

  ghost predicate OccursAt(s: string, t: string, i: nat) {
    i + |t| <= |s| && s[i..i + |t|] == t
  }

  ghost predicate Occurs(s: string, t: string) {
    exists i :: OccursAt(s, t, i)
  }

  method StringContains(s: string, sub: string) returns (found: bool)
    ensures found <==> Occurs(s, sub)
  {
    if |sub| > |s| {
      return false;
    }
    for i := 0 to |s| - |sub| + 1
      invariant forall k :: 0 <= k < i ==> !OccursAt(s, sub, k)
    {
      var matching := true;
      for j := 0 to |sub|
        invariant matching
        invariant s[i..i + j] == sub[..j]
      {
        if s[i + j] != sub[j] {
          matching := false;
          assert s[i..i + |sub|][j] != sub[j];
          break;
        }
        assert s[i..i + (j + 1)] == s[i..i + j] + [s[i + j]];
      }
      if matching {
        assert sub[..|sub|] == sub;
        assert OccursAt(s, sub, i);
        return true;
      }
    }
    found := false;
  }

  method Contains(s: string, sub: string) returns (found: bool)
    ensures found <==> Occurs(Lower(s), Lower(sub))
  {
    var lowerS := ToLower(s);
    var lowerSub := ToLower(sub);
    found := StringContains(lowerS, lowerSub);
  }

  const RETRYABLE_PATTERNS: seq<string> := [
    "connection reset", "connection refused", "timeout", "temporary failure", "service unavailable",
    "too many requests", "rate limit", "throttled", "internal server error", "bad gateway",
    "service temporarily unavailable", "gateway timeout"]

  /** Some pattern occurs in the text, whatever the case of either. */
  ghost predicate MatchesOneOf(patterns: seq<string>, text: string) {
    exists k :: 0 <= k < |patterns| && Occurs(Lower(text), Lower(patterns[k]))
  }

  ghost predicate Matches(text: string) {
    MatchesOneOf(RETRYABLE_PATTERNS, text)
  }

  /** The same letter, in the same case or not. */
  predicate SameLetter(a: char, b: char) {
    a == b || ('A' <= a <= 'Z' && b as int == a as int + 32) || ('A' <= b <= 'Z' && a as int == b as int + 32)
  }

  /** Messages that differ in the case of letters only are classified alike. */
  lemma CaseDoesNotMatter(a: string, b: string)
    requires |a| == |b| && forall i :: 0 <= i < |a| ==> SameLetter(a[i], b[i])
    ensures Matches(a) <==> Matches(b)
  {
    assert Lower(a) == Lower(b);
  }

  /** A message that quotes one of the twelve phrases, whatever stands around it, is retried. */
  lemma QuotedPhrasesAreRetried(before: string, k: nat, after: string)
    requires k < 12
    ensures Matches(before + ["connection reset", "connection refused", "timeout", "temporary failure", "service unavailable",
                              "too many requests", "rate limit", "throttled", "internal server error", "bad gateway",
                              "service temporarily unavailable", "gateway timeout"][k] + after)
  {
    OccursBetween(before, RETRYABLE_PATTERNS[k], after);
  }

  lemma OccursBetween(before: string, phrase: string, after: string)
    ensures Occurs(Lower(before + phrase + after), Lower(phrase))
  {
    assert OccursAt(Lower(before + phrase + after), Lower(phrase), |before|);
  }

  method DefaultRetryableFunc(err: Error) returns (retryable: bool)
    ensures retryable <==> err.Message? && Matches(err.text)
  {
    if !err.Message? {
      return false;
    }
    for k := 0 to |RETRYABLE_PATTERNS|
      invariant forall l :: 0 <= l < k ==> !Occurs(Lower(err.text), Lower(RETRYABLE_PATTERNS[l]))
    {
      var found := Contains(err.text, RETRYABLE_PATTERNS[k]);
      if found {
        return true;
      }
    }
    retryable := false;
  }

  // ---------------------------------------------------------------- a breaker's own rejection

  function StateName(s: State): string {
    match s
    case Closed => "CLOSED"
    case Open => "OPEN"
    case HalfOpen => "HALF_OPEN"
  }

  function Rejection(name: string, s: State): Error {
    Message("circuit breaker '" + name + "' is " + StateName(s))
  }

  lemma LettersCarryOver(s: string, t: string, i: nat, p: nat)
    requires OccursAt(s, t, i) && i <= p < i + |t|
    ensures s[p] == t[p - i]
  {
    assert s[p] == s[i..i + |t|][p - i];
  }

  lemma MissingLetter(s: string, t: string, j: nat)
    requires j < |t| && t[j] !in s
    ensures !Occurs(s, t)
  {
    if i: nat :| OccursAt(s, t, i) {
      LettersCarryOver(s, t, i, i + j);
    }
  }

  lemma OccursInPart(a: string, s: string, b: string, t: string)
    requires Occurs(s, t)
    ensures Occurs(a + s + b, t)
  {
    var i: nat :| OccursAt(s, t, i);
    assert (a + s + b)[|a| + i..|a| + i + |t|] == s[i..i + |t|];
    assert OccursAt(a + s + b, t, |a| + i);
  }

  /** A text without the separator occurs in a separated text exactly when it occurs on one side. */
  lemma OccursAcross(a: string, sep: char, b: string, t: string)
    requires sep !in t
    ensures Occurs(a + [sep] + b, t) <==> Occurs(a, t) || Occurs(b, t)
  {
    var s := a + [sep] + b;
    if Occurs(s, t) {
      var i: nat :| OccursAt(s, t, i);
      if i + |t| <= |a| {
        assert s[i..i + |t|] == a[i..i + |t|];
        assert OccursAt(a, t, i);
      } else if i > |a| {
        assert s[i..i + |t|] == b[i - |a| - 1..i - |a| - 1 + |t|];
        assert OccursAt(b, t, i - |a| - 1);
      } else {
        LettersCarryOver(s, t, i, |a|);
      }
    }
    if Occurs(a, t) {
      OccursInPart("", a, [sep] + b, t);
      assert "" + a + ([sep] + b) == s;
    }
    if Occurs(b, t) {
      OccursInPart(a + [sep], b, "", t);
      assert a + [sep] + b + "" == s;
    }
  }

  /** Every pattern has a letter that the head of a rejection message lacks. */
  lemma HeadMatchesNothing(k: nat)
    requires k < |RETRYABLE_PATTERNS|
    ensures !Occurs(Lower("circuit breaker "), Lower(RETRYABLE_PATTERNS[k]))
  {
    MissingLetter(Lower("circuit breaker "), Lower(RETRYABLE_PATTERNS[k]), [2, 2, 2, 2, 0, 1, 5, 1, 1, 2, 0, 0][k]);
  }

  /** And one that its tail lacks. */
  lemma TailMatchesNothing(k: nat, s: State)
    requires k < |RETRYABLE_PATTERNS|
    ensures !Occurs(Lower(" is " + StateName(s)), Lower(RETRYABLE_PATTERNS[k]))
  {
    MissingLetter(Lower(" is " + StateName(s)), Lower(RETRYABLE_PATTERNS[k]), [6, 6, 0, 0, 2, 0, 0, 0, 2, 4, 2, 2][k]);
  }

  lemma DeltaMatchesNothing(k: nat)
    requires k < |RETRYABLE_PATTERNS|
    ensures !Occurs(Lower("delta_operations"), Lower(RETRYABLE_PATTERNS[k]))
  {
    MissingLetter(Lower("delta_operations"), Lower(RETRYABLE_PATTERNS[k]), [0, 0, 2, 2, 5, 3, 4, 1, 8, 0, 5, 0][k]);
  }

  lemma NoPatternIsQuoted(k: nat)
    requires k < |RETRYABLE_PATTERNS|
    ensures '\'' !in Lower(RETRYABLE_PATTERNS[k])
  {
    NotALetter(RETRYABLE_PATTERNS[k], '\'');
  }

  lemma NotALetter(s: string, c: char)
    requires c !in s && !('a' <= c <= 'z')
    ensures c !in Lower(s)
  {
  }

  /** With a head and a tail that match nothing, the quoted name decides. */
  lemma NameDecides(patterns: seq<string>, head: string, name: string, tail: string)
    requires forall k :: 0 <= k < |patterns| ==>
               '\'' !in Lower(patterns[k]) && !Occurs(Lower(head), Lower(patterns[k])) && !Occurs(Lower(tail), Lower(patterns[k]))
    ensures MatchesOneOf(patterns, head + ['\''] + (name + ['\''] + tail)) <==> MatchesOneOf(patterns, name)
  {
    var text := head + ['\''] + (name + ['\''] + tail);
    var rest := Lower(name) + ['\''] + Lower(tail);
    assert Lower(text) == Lower(head) + ['\''] + rest;
    forall k | 0 <= k < |patterns|
      ensures Occurs(Lower(text), Lower(patterns[k])) <==> Occurs(Lower(name), Lower(patterns[k]))
    {
      OccursAcross(Lower(head), '\'', rest, Lower(patterns[k]));
      OccursAcross(Lower(name), '\'', Lower(tail), Lower(patterns[k]));
    }
  }

  /** A breaker's rejection counts as retryable exactly when the breaker's own name contains one of
      the patterns. */
  lemma RejectionIsRetryableExactlyWhen(name: string, s: State)
    ensures Matches(Rejection(name, s).text) <==> Matches(name)
  {
    var head, tail := "circuit breaker ", " is " + StateName(s);
    assert Rejection(name, s).text == head + ['\''] + (name + ['\''] + tail);
    forall k | 0 <= k < |RETRYABLE_PATTERNS|
      ensures '\'' !in Lower(RETRYABLE_PATTERNS[k])
      ensures !Occurs(Lower(head), Lower(RETRYABLE_PATTERNS[k])) && !Occurs(Lower(tail), Lower(RETRYABLE_PATTERNS[k]))
    {
      NoPatternIsQuoted(k);
      HeadMatchesNothing(k);
      TailMatchesNothing(k, s);
    }
    NameDecides(RETRYABLE_PATTERNS, head, name, tail);
  }

  /** The breaker of a Delta table is one whose rejections are final. */
  lemma DeltaRejectionsAreFinal(s: State)
    ensures !Matches(Rejection("delta_operations", s).text)
  {
    RejectionIsRetryableExactlyWhen("delta_operations", s);
    forall k | 0 <= k < |RETRYABLE_PATTERNS|
      ensures !Occurs(Lower("delta_operations"), Lower(RETRYABLE_PATTERNS[k]))
    {
      DeltaMatchesNothing(k);
    }
  }
}
