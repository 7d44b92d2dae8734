/** Utilities of the backend (src/utils/helpers.ts): keyword extraction,
    text truncation and retrying with exponential backoff. */
module Helpers {
  import opened Wrappers
  import opened Text
  import opened Seqs

  /** The words `extractKeywords` never returns. */
  const StopWords: set<string> := {
    "the", "a", "an", "and", "or", "but", "in", "on", "at", "to", "for", "of", "with", "by",
    "is", "are", "was", "were", "be", "been", "being", "have", "has", "had", "do", "does", "did",
    "will", "would", "could", "should", "may", "might", "must", "can", "this", "that", "these",
    "those", "i", "you", "he", "she", "it", "we", "they", "me", "him", "her", "us", "them"
  }

  /** The number of keywords returned at most (`slice(0, 10)`). */
  const MaxKeywords := 10

  /** `replace(/[^\w\s]/g, '')`: every character that is neither a word
      character nor whitespace removed, the rest kept in order. */
  function StripPunctuation(s: string): (r: string)
    ensures |r| <= |s|
    ensures Subsequence(r, s)
    ensures forall c :: c in r <==> c in s && (IsWordChar(c) || IsSpace(c))
    ensures forall c :: multiset(r)[c] == if IsWordChar(c) || IsSpace(c) then multiset(s)[c] else 0
  {
    Filter(s, (c: char) => IsWordChar(c) || IsSpace(c))
  }

  /** A word worth keeping: longer than three characters and not a stop word. */
  predicate Eligible(w: string) {
    |w| > 3 && w !in StopWords
  }

  /** The eligible words, in order, duplicates kept. */
  function EligibleWords(words: seq<string>): (r: seq<string>)
    ensures |r| <= |words|
    ensures Subsequence(r, words)
    ensures forall w :: w in r <==> w in words && Eligible(w)
    ensures forall w :: multiset(r)[w] == if Eligible(w) then multiset(words)[w] else 0
  {
    Filter(words, Eligible)
  }

  /** The words of a text as `extractKeywords` sees them: lower-cased,
      punctuation removed, split on runs of whitespace. Joined by single
      spaces they give the stripped text with each whitespace run collapsed
      to one space. */
  function Words(text: string): (r: seq<string>)
    ensures Join(r, " ") == CollapseSpaces(StripPunctuation(Lower(text)))
    ensures forall w, c | w in r && c in w :: IsWordChar(c) && !IsUpperAscii(c)
  {
    var stripped := StripPunctuation(Lower(text));
    JoinSplit(CollapseSpaces(stripped), ' ');
    WordsAreLowerWordChars(text);
    SplitOnSpaceRuns(stripped)
  }

  /** Lower-casing, stripping and splitting leaves only lower-case word
      characters in the pieces. */
  lemma WordsAreLowerWordChars(text: string)
    ensures forall w, c | w in SplitOnSpaceRuns(StripPunctuation(Lower(text))) && c in w ::
      IsWordChar(c) && !IsUpperAscii(c)
  {
    var lowered := Lower(text);
    var stripped := StripPunctuation(lowered);
    var r := SplitOnSpaceRuns(stripped);
    forall w, c | w in r && c in w
      ensures IsWordChar(c) && !IsUpperAscii(c)
    {
      var i :| 0 <= i < |r| && r[i] == w;
      assert c in stripped && !IsSpace(c);
      var k :| 0 <= k < |lowered| && lowered[k] == c;
      assert c == LowerChar(text[k]);
    }
  }

  /** `extractKeywords`: the first ten eligible words of the text, in order
      of appearance and with repeats. */
  function ExtractKeywords(text: string): (r: seq<string>)
    ensures |r| == Min(MaxKeywords, |EligibleWords(Words(text))|)
    ensures r <= EligibleWords(Words(text))
    ensures |EligibleWords(Words(text))| <= MaxKeywords ==> r == EligibleWords(Words(text))
    ensures forall w | w in r :: Eligible(w) && w in Words(text)
    ensures forall w, c | w in r && c in w :: IsWordChar(c) && !IsUpperAscii(c)
  {
    var all := EligibleWords(Words(text));
    var r := if |all| <= MaxKeywords then all else all[..MaxKeywords];
    assert forall w | w in r :: w in all;
    r
  }

  /** `truncateText`: the text itself when it fits in `maxLength`
      characters; otherwise its first `maxLength` characters, trimmed, and
      "..." after them. */
  function TruncateText(text: string, maxLength: int): (r: string)
    ensures |text| <= maxLength ==> r == text
    ensures |text| > maxLength ==>
      && |r| >= 3 && r[|r| - 3..] == "..."
      && TrimmedFrom(r[..|r| - 3], Prefix(text, maxLength))
      && (maxLength >= 0 ==> |r| <= maxLength + 3)
  {
    if |text| <= maxLength then text
    else
      var kept := Trim(Prefix(text, maxLength));
      var r := kept + "...";
      assert r[..|r| - 3] == kept;
      r
  }

  /** The kept part is determined by the trimming rule: any text that is
      the prefix with its surrounding whitespace removed is the kept part. */
  lemma TruncatedPartIsTheTrimmedPrefix(text: string, maxLength: int, t: string)
    requires |text| > maxLength
    requires TrimmedFrom(t, Prefix(text, maxLength))
    ensures TruncateText(text, maxLength) == t + "..."
  {
    TrimUnique(t, Prefix(text, maxLength));
  }

  /** What one call of the retried function does: return a value or throw. */
  datatype Outcome<T, E> = Returned(value: T) | Threw(error: E)

  function Pow2(n: nat): (r: nat)
    ensures r >= 1
  {
    if n == 0 then 1 else 2 * Pow2(n - 1)
  }

  /** The waits between attempts: `delay`, doubled after each. */
  function Backoff(delay: int, n: nat): (r: seq<int>)
    ensures |r| == n
    ensures n > 0 ==> r[0] == delay
    ensures forall i | 0 <= i < n - 1 :: r[i + 1] == 2 * r[i]
  {
    seq(n, i requires 0 <= i < n => delay * Pow2(i))
  }

  /** The number of calls `retry` makes when the `k`-th call (counting from
      1) has outcome `calls(k)`: up to the first that returns, at most
      `maxAttempts`, none when `maxAttempts` is below 1. */
  function AttemptsUsed<T, E>(calls: nat -> Outcome<T, E>, maxAttempts: int): (n: nat)
    ensures maxAttempts < 1 ==> n == 0
    ensures maxAttempts >= 1 ==> 1 <= n <= maxAttempts
    ensures forall k | 1 <= k < n :: calls(k).Threw?
    ensures 1 <= n < maxAttempts ==> calls(n).Returned?
  {
    if maxAttempts < 1 then 0 else AttemptsFrom(calls, 1, maxAttempts)
  }

  function AttemptsFrom<T, E>(calls: nat -> Outcome<T, E>, k: nat, maxAttempts: int): (n: nat)
    requires 1 <= k <= maxAttempts
    ensures k <= n <= maxAttempts
    ensures forall j | k <= j < n :: calls(j).Threw?
    ensures n < maxAttempts ==> calls(n).Returned?
    decreases maxAttempts - k
  {
    if calls(k).Returned? || k == maxAttempts then k else AttemptsFrom(calls, k + 1, maxAttempts)
  }

  /** What `retry` settles to: the value of the first call that returns, or
      the error of the last call; with no attempt at all, the undefined
      `lastError` (`None`) is thrown. */
  function RetryResult<T, E>(calls: nat -> Outcome<T, E>, maxAttempts: int): (r: Result<T, Option<E>>)
    ensures r.Success? <==> exists k | 1 <= k <= maxAttempts :: calls(k).Returned?
    ensures r.Success? ==> exists k | 1 <= k <= maxAttempts ::
      calls(k) == Returned(r.value) && forall j | 1 <= j < k :: calls(j).Threw?
    ensures r.Failure? && maxAttempts >= 1 ==> r.error == Some(calls(maxAttempts).error)
    ensures maxAttempts < 1 ==> r == Failure(None)
  {
    var n := AttemptsUsed(calls, maxAttempts);
    if n == 0 then Failure(None)
    else match calls(n)
      case Returned(v) => Success(v)
      case Threw(e) =>
        assert forall k | 1 <= k <= maxAttempts :: calls(k).Threw?;
        Failure(Some(e))
  }

  /** `retry`: call the function up to `maxAttempts` times, returning the
      first value; after a failure other than the last, wait `delay` and
      double it. Returns the outcome, the number of calls and the waits. */
  method Retry<T, E>(calls: nat -> Outcome<T, E>, maxAttempts: int, delay: int)
    returns (r: Result<T, Option<E>>, attempts: nat, waits: seq<int>)
    ensures r == RetryResult(calls, maxAttempts)
    ensures attempts == AttemptsUsed(calls, maxAttempts)
    ensures waits == Backoff(delay, if attempts == 0 then 0 else attempts - 1)
  {
    var lastError: Option<E> := None;
    var wait := delay;
    attempts, waits := 0, [];
    var attempt := 1;
    while attempt <= maxAttempts
      invariant 1 <= attempt && (maxAttempts >= 1 ==> attempt <= maxAttempts)
      invariant maxAttempts < 1 ==> attempt == 1
      invariant attempts == attempt - 1
      invariant forall k | 1 <= k < attempt :: calls(k).Threw?
      invariant maxAttempts >= 1 ==> AttemptsFrom(calls, 1, maxAttempts) == AttemptsFrom(calls, attempt, maxAttempts)
      invariant waits == Backoff(delay, attempt - 1)
      invariant wait == delay * Pow2(attempt - 1)
      invariant attempt == 1 ==> lastError == None
      decreases maxAttempts - attempt
    {
      attempts := attempts + 1;
      var outcome := calls(attempt);
      if outcome.Returned? {
        return Success(outcome.value), attempts, waits;
      }
      lastError := Some(outcome.error);
      if attempt == maxAttempts {
        return Failure(lastError), attempts, waits;
      }
      waits := waits + [wait];
      wait := wait * 2;
      attempt := attempt + 1;
    }
    r := Failure(lastError);
  }
}
