/** Display formatting of the web client (frontend/src/utils/format.ts):
    capitalisation, initials, the suffix choice of compact numbers, and the
    missing-input branches of the date formatters. Its `truncateText` is
    the backend rule, `Helpers.TruncateText`. */
module Format {
  import opened Wrappers
  import opened Text
  import opened Seqs

  /** `capitalizeFirst`: the first character upper-cased, the rest as is. */
  function CapitalizeFirst(s: string): (r: string)
    ensures |r| == |s|
    ensures s != [] ==> r[1..] == s[1..]
    ensures s != [] ==> r[0] == UpperChar(s[0])
    ensures s != [] ==> !IsLowerAscii(r[0]) && (IsLowerAscii(s[0]) || r[0] == s[0])
  {
    if s == [] then [] else [UpperChar(s[0])] + s[1..]
  }

  /** Capitalising twice is capitalising once. */
  lemma CapitalizeFirstIdempotent(s: string)
    ensures CapitalizeFirst(CapitalizeFirst(s)) == CapitalizeFirst(s)
  {
    if s != [] {
      var c := CapitalizeFirst(s);
      assert UpperChar(c[0]) == c[0];
      assert c[1..] == s[1..];
    }
  }

  /** `charAt(0)` of each word, concatenated: an empty word gives nothing. */
  function FirstChars(words: seq<string>): string {
    if words == [] then []
    else (if words[0] == [] then [] else [words[0][0]]) + FirstChars(words[1..])
  }

  /** The characters that start a word: not a space, and at the start of the
      text or after a space (`atStart` says whether the previous character
      was a space, or there was none). */
  function WordStarts(s: string, atStart: bool): (r: string)
    ensures |r| <= |s|
    ensures forall c | c in r :: c in s && c != ' '
  {
    if s == [] then []
    else
      var rest := WordStarts(s[1..], s[0] == ' ');
      assert forall c | c in s[1..] :: c in s;
      (if atStart && s[0] != ' ' then [s[0]] else []) + rest
  }

  /** The first letters of the pieces of `split(' ')` are the word starts. */
  lemma {:induction false} FirstCharsOfSplit(s: string)
    ensures FirstChars(Split(s, ' ')) == WordStarts(s, true)
    ensures FirstChars(Split(s, ' ')[1..]) == WordStarts(s, false)
  {
    if s != [] {
      var rest := Split(s[1..], ' ');
      FirstCharsOfSplit(s[1..]);
      if s[0] == ' ' {
        assert Split(s, ' ') == [[]] + rest;
        assert ([[]] + rest)[1..] == rest;
      } else {
        var parts := [[s[0]] + rest[0]] + rest[1..];
        assert Split(s, ' ') == parts;
        assert parts[1..] == rest[1..];
        assert FirstChars(rest) == (if rest[0] == [] then [] else [rest[0][0]]) + FirstChars(rest[1..]);
      }
    }
  }

  /** `getInitials`: the first letter of each space-separated word, upper
      case, at most two of them. */
  function GetInitials(name: string): (r: string)
    ensures |r| == Min(2, |WordStarts(name, true)|)
    ensures forall i | 0 <= i < |r| :: !IsLowerAscii(r[i])
    ensures r <= Upper(WordStarts(name, true))
  {
    FirstCharsOfSplit(name);
    Prefix(Upper(FirstChars(Split(name, ' '))), 2)
  }

  /** A name of at least two words gives two initials, the first of its
      first word and the first of its second word. */
  lemma TwoWordInitials(first: string, second: string)
    requires first != [] && ' ' !in first
    requires second != [] && second[0] != ' '
    ensures GetInitials(first + " " + second) == [UpperChar(first[0]), UpperChar(second[0])]
  {
    var name := first + " " + second;
    FirstCharsOfSplit(name);
    assert name == first + (" " + second);
    WordStartsOfWord(first, " " + second);
    WordStartsAfterSpace(second);
  }

  /** After a space, a word's first character starts a word. */
  lemma WordStartsAfterSpace(second: string)
    requires second != [] && second[0] != ' '
    ensures WordStarts(" " + second, false) == WordStarts(second, true)
    ensures WordStarts(second, true)[0] == second[0]
  {
    assert (" " + second)[1..] == second;
  }

  /** Inside a word only its first character starts a word. */
  lemma {:induction false} WordStartsOfWord(w: string, more: string)
    requires w != [] && ' ' !in w
    ensures WordStarts(w + more, true) == [w[0]] + WordStarts(more, false)
  {
    NoStartsInsideWord(w[1..], more);
    assert (w + more)[1..] == w[1..] + more;
    assert w[0] in w;
  }

  lemma {:induction false} NoStartsInsideWord(w: string, more: string)
    requires ' ' !in w
    ensures WordStarts(w + more, false) == WordStarts(more, false)
  {
    if w == [] {
      assert w + more == more;
    } else {
      assert w[0] in w;
      assert (w + more)[1..] == w[1..] + more;
      assert ' ' !in w[1..] by { assert forall c | c in w[1..] :: c in w; }
      NoStartsInsideWord(w[1..], more);
      var s := w + more;
      assert s[0] != ' ';
      assert WordStarts(s, false) == WordStarts(s[1..], false);
    }
  }

  /** `formatNumber`: a million or more is shown in millions with an "M", a
      thousand or more in thousands with a "K", anything smaller in plain
      decimal. `fixed1` stands for `toFixed(1)` on the quotient. */
  function FormatNumber(n: int, fixed1: real -> string): (r: string)
    ensures r != []
    ensures r[|r| - 1] == 'M' <==> n >= 1000000
    ensures r[|r| - 1] == 'K' <==> 1000 <= n < 1000000
    ensures n < 1000 ==> r == IntToString(n)
    ensures n >= 1000000 ==> r[..|r| - 1] == fixed1(n as real / 1000000.0)
    ensures 1000 <= n < 1000000 ==> r[..|r| - 1] == fixed1(n as real / 1000.0)
  {
    if n >= 1000000 then fixed1(n as real / 1000000.0) + "M"
    else if n >= 1000 then fixed1(n as real / 1000.0) + "K"
    else IntToString(n)
  }

  /** The argument of the date formatters. A `Date` object is held as the
      instant it denotes, or none when it is an invalid date. */
  datatype DateArg = Null | Undefined | Written(s: string) | Instant(at: Option<int>)

  /** `!date`: null, undefined and the empty string. */
  predicate Missing(d: DateArg) {
    d.Null? || d.Undefined? || d == Written("")
  }

  const UnknownDate := "Unknown"
  const InvalidDate := "Invalid date"

  /** `formatDate` and `formatRelativeTime`, which differ only in how they
      render a valid instant: "Unknown" for a missing date, "Invalid date"
      for text that does not parse, an invalid `Date`, or a rendering that
      throws. `parse` stands for `parseISO`, `render` for the date-fns call. */
  function FormatWith(d: DateArg, parse: string -> Option<int>, render: int -> Option<string>): (r: string)
    ensures Missing(d) ==> r == UnknownDate
    ensures !Missing(d) ==>
      var at := if d.Written? then parse(d.s) else d.at;
      r == if at.None? || render(at.value).None? then InvalidDate else render(at.value).value
  {
    if Missing(d) then UnknownDate
    else
      var at := if d.Written? then parse(d.s) else d.at;
      if at.None? then InvalidDate
      else match render(at.value)
        case None => InvalidDate
        case Some(text) => text
  }

  /** "Unknown" means exactly a missing date, whenever the rendering itself
      never produces that word. */
  lemma UnknownOnlyForMissing(d: DateArg, parse: string -> Option<int>, render: int -> Option<string>)
    requires forall t :: render(t) != Some(UnknownDate)
    ensures FormatWith(d, parse, render) == UnknownDate <==> Missing(d)
  {
    if !Missing(d) {
      var at := if d.Written? then parse(d.s) else d.at;
      if at.Some? {
        var v: int := at.value;
        var shown := render(v);
        assert shown != Some(UnknownDate);
        assert shown.Some? ==> shown.value != UnknownDate;
      }
    }
  }
}
