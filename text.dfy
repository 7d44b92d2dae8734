/** The JavaScript string operations the services are built from, stated on
    `seq<char>`: the `\s` whitespace set, `trim`, `substring(0, n)`, `split`
    on one character, `split(/\s+/)`, `join`, ASCII case mapping and the
    decimal rendering of integers. */
module Text {
  import opened Wrappers

  /** What ECMAScript's `\s` matches and `String.prototype.trim` removes:
      the WhiteSpace and LineTerminator code points. */
  const Whitespace: set<char> := {
    '\t', '\n', '\U{000B}', '\U{000C}', '\r', ' ', '\U{00A0}', '\U{1680}',
    '\U{2000}', '\U{2001}', '\U{2002}', '\U{2003}', '\U{2004}', '\U{2005}',
    '\U{2006}', '\U{2007}', '\U{2008}', '\U{2009}', '\U{200A}',
    '\U{2028}', '\U{2029}', '\U{202F}', '\U{205F}', '\U{3000}', '\U{FEFF}'
  }

  predicate IsSpace(c: char) {
    c in Whitespace
  }

  /** The characters a regular-expression `.` does not match. */
  predicate IsLineTerminator(c: char) {
    c == '\n' || c == '\r' || c == '\U{2028}' || c == '\U{2029}'
  }

  /** `\w`: ASCII letters, digits and the underscore. */
  predicate IsWordChar(c: char) {
    ('a' <= c <= 'z') || ('A' <= c <= 'Z') || ('0' <= c <= '9') || c == '_'
  }

  predicate IsUpperAscii(c: char) {
    'A' <= c <= 'Z'
  }

  predicate IsLowerAscii(c: char) {
    'a' <= c <= 'z'
  }

  predicate AllSpace(s: string) {
    forall i | 0 <= i < |s| :: IsSpace(s[i])
  }

  /** JavaScript truthiness of an optional string: present and not empty. */
  predicate Truthy(o: Option<string>) {
    o.Some? && o.value != ""
  }

  /** `o || fallback` on an optional string. */
  function OrElse(o: Option<string>, fallback: string): (r: string)
    ensures Truthy(o) ==> r == o.value
    ensures !Truthy(o) ==> r == fallback
  {
    if Truthy(o) then o.value else fallback
  }

  function LowerChar(c: char): (r: char)
    ensures !IsUpperAscii(r)
    ensures IsWordChar(r) <==> IsWordChar(c)
    ensures IsSpace(r) <==> IsSpace(c)
  {
    if IsUpperAscii(c) then (c as int + 32) as char else c
  }

  function UpperChar(c: char): (r: char)
    ensures !IsLowerAscii(r)
    ensures !IsLowerAscii(c) ==> r == c
    ensures IsLowerAscii(c) ==> r as int == c as int - 32
  {
    if IsLowerAscii(c) then (c as int - 32) as char else c
  }

  /** `toLowerCase`, on ASCII letters. */
  function Lower(s: string): (r: string)
    ensures |r| == |s|
    ensures forall i | 0 <= i < |s| :: r[i] == LowerChar(s[i])
  {
    seq(|s|, i requires 0 <= i < |s| => LowerChar(s[i]))
  }

  /** `toUpperCase`, on ASCII letters. */
  function Upper(s: string): (r: string)
    ensures |r| == |s|
    ensures forall i | 0 <= i < |s| :: r[i] == UpperChar(s[i])
  {
    seq(|s|, i requires 0 <= i < |s| => UpperChar(s[i]))
  }

  /** `s.substring(0, n)`: a negative end counts as 0, one past the end as the end. */
  function Prefix(s: string, n: int): (r: string)
    ensures r <= s
    ensures |r| == if n <= 0 then 0 else if n < |s| then n else |s|
  {
    if n <= 0 then [] else if n < |s| then s[..n] else s
  }

  function TrimStart(s: string): (r: string)
    ensures |r| <= |s| && r == s[|s| - |r|..]
    ensures AllSpace(s[..|s| - |r|])
    ensures r == [] || !IsSpace(r[0])
  {
    if s != [] && IsSpace(s[0]) then
      var r := TrimStart(s[1..]);
      assert s[..|s| - |r|] == [s[0]] + s[1..][..|s[1..]| - |r|];
      r
    else
      s
  }

  function TrimEnd(s: string): (r: string)
    ensures r <= s
    ensures AllSpace(s[|r|..])
    ensures r == [] || !IsSpace(r[|r| - 1])
  {
    if s != [] && IsSpace(s[|s| - 1]) then
      var r := TrimEnd(s[..|s| - 1]);
      assert s[|r|..] == s[..|s| - 1][|r|..] + [s[|s| - 1]];
      r
    else
      s
  }

  /** `t` is `s` with its leading and trailing whitespace removed: a slice of
      `s` flanked only by whitespace, and not itself beginning or ending with
      whitespace. */
  ghost predicate TrimmedFrom(t: string, s: string) {
    exists i, j | 0 <= i <= j <= |s| ::
      && t == s[i..j] && AllSpace(s[..i]) && AllSpace(s[j..])
      && (t == [] || (!IsSpace(t[0]) && !IsSpace(t[|t| - 1])))
  }

  /** `s.trim()`. */
  function Trim(s: string): (r: string)
    ensures TrimmedFrom(r, s)
    ensures |r| <= |s|
  {
    var a := TrimStart(s);
    var r := TrimEnd(a);
    TrimmedWitness(s, a, r);
    r
  }

  /** Cutting leading whitespace, then trailing whitespace, leaves a trimmed
      core of the text. */
  lemma TrimmedWitness(s: string, a: string, r: string)
    requires |a| <= |s| && a == s[|s| - |a|..] && AllSpace(s[..|s| - |a|]) && (a == [] || !IsSpace(a[0]))
    requires r <= a && AllSpace(a[|r|..]) && (r == [] || !IsSpace(r[|r| - 1]))
    ensures TrimmedFrom(r, s)
  {
    var i := |s| - |a|;
    assert s[i..i + |r|] == r;
    assert s[i + |r|..] == a[|r|..];
    assert r == [] || r[0] == a[0];
  }

  lemma {:induction false} TrimStartAt(s: string, i: nat)
    requires i <= |s| && AllSpace(s[..i]) && (i == |s| || !IsSpace(s[i]))
    ensures TrimStart(s) == s[i..]
  {
    if i > 0 {
      assert IsSpace(s[..i][0]);
      assert s[1..][..i - 1] == s[..i][1..];
      TrimStartAt(s[1..], i - 1);
      assert s[1..][i - 1..] == s[i..];
    }
  }

  lemma {:induction false} TrimEndAt(s: string, j: nat)
    requires j <= |s| && AllSpace(s[j..]) && (j == 0 || !IsSpace(s[j - 1]))
    ensures TrimEnd(s) == s[..j]
  {
    if j < |s| {
      assert IsSpace(s[j..][|s| - 1 - j]);
      assert s[..|s| - 1][j..] == s[j..][..|s| - 1 - j];
      TrimEndAt(s[..|s| - 1], j);
      assert s[..|s| - 1][..j] == s[..j];
    }
  }

  lemma TrimUniqueAt(t: string, s: string, i: nat, j: nat)
    requires i <= j <= |s| && t == s[i..j] && AllSpace(s[..i]) && AllSpace(s[j..])
    requires t == [] || (!IsSpace(t[0]) && !IsSpace(t[|t| - 1]))
    ensures TrimEnd(TrimStart(s)) == t
  {
    if t == [] {
      TrimAllSpace(s, i, j);
    } else {
      SliceEnds(s, i, j);
      TrimAroundCore(s, i, j);
    }
  }

  lemma SliceEnds(s: string, i: nat, j: nat)
    requires i < j <= |s|
    ensures s[i..j][0] == s[i] && s[i..j][|s[i..j]| - 1] == s[j - 1]
  {
  }

  /** A text of whitespace only trims to nothing. */
  lemma TrimAllSpace(s: string, i: nat, j: nat)
    requires i == j <= |s| && AllSpace(s[..i]) && AllSpace(s[j..])
    ensures TrimEnd(TrimStart(s)) == []
  {
    assert AllSpace(s) by {
      forall m | 0 <= m < |s| ensures IsSpace(s[m]) {
        if m < i { assert s[..i][m] == s[m]; } else { assert s[j..][m - j] == s[m]; }
      }
    }
    assert s[..|s|] == s;
    TrimStartAt(s, |s|);
  }

  /** Whitespace on both sides of a visible core is exactly what trimming removes. */
  lemma TrimAroundCore(s: string, i: nat, j: nat)
    requires i < j <= |s| && AllSpace(s[..i]) && AllSpace(s[j..])
    requires !IsSpace(s[i]) && !IsSpace(s[j - 1])
    ensures TrimEnd(TrimStart(s)) == s[i..j]
  {
    TrimStartAt(s, i);
    TrimEndOfSlice(s, i, j);
  }

  lemma TrimEndOfSlice(s: string, i: nat, j: nat)
    requires i < j <= |s| && AllSpace(s[j..]) && !IsSpace(s[j - 1])
    ensures TrimEnd(s[i..]) == s[i..j]
  {
    var a := s[i..];
    assert a[j - i..] == s[j..];
    assert a[..j - i] == s[i..j];
    assert a[j - i - 1] == s[j - 1];
    TrimEndAt(a, j - i);
  }

  /** Trimming has exactly one outcome: whatever satisfies the characterisation
      is what `Trim` computes. */
  lemma TrimUnique(t: string, s: string)
    requires TrimmedFrom(t, s)
    ensures t == Trim(s)
  {
    var i, j :| 0 <= i <= j <= |s| && t == s[i..j] && AllSpace(s[..i]) && AllSpace(s[j..])
      && (t == [] || (!IsSpace(t[0]) && !IsSpace(t[|t| - 1])));
    TrimUniqueAt(t, s, i, j);
  }

  /** `s.split(sep)` for a one-character separator. */
  function Split(s: string, sep: char): (r: seq<string>)
    ensures |r| >= 1
    ensures forall i | 0 <= i < |r| :: sep !in r[i]
    ensures forall i, c | 0 <= i < |r| && c in r[i] :: c in s
  {
    if s == [] then [[]]
    else
      var rest := Split(s[1..], sep);
      assert forall c | c in s[1..] :: c in s;
      if s[0] == sep then [[]] + rest else [[s[0]] + rest[0]] + rest[1..]
  }

  /** `parts.join(sep)`. */
  function Join(parts: seq<string>, sep: string): string {
    if |parts| == 0 then []
    else if |parts| == 1 then parts[0]
    else parts[0] + sep + Join(parts[1..], sep)
  }

  /** Splitting loses nothing: joining the pieces with the separator gives the text back. */
  lemma {:induction false} JoinSplit(s: string, sep: char)
    ensures Join(Split(s, sep), [sep]) == s
  {
    if s != [] {
      var rest := Split(s[1..], sep);
      JoinSplit(s[1..], sep);
      if s[0] == sep {
        assert ([[]] + rest)[1..] == rest;
      } else {
        var parts := [[s[0]] + rest[0]] + rest[1..];
        assert parts[1..] == rest[1..];
        if |rest| > 1 {
          assert Join(rest, [sep]) == rest[0] + [sep] + Join(rest[1..], [sep]);
        }
      }
    }
  }

  /** A text without the separator is a single piece. */
  lemma {:induction false} SplitWithoutSeparator(s: string, sep: char)
    requires sep !in s
    ensures Split(s, sep) == [s]
  {
    if s != [] {
      assert sep !in s[1..] by { assert forall c | c in s[1..] :: c in s; }
      SplitWithoutSeparator(s[1..], sep);
      assert s[0] != sep by { assert s[0] in s; }
      assert [s[0]] + s[1..] == s;
    }
  }

  /** A text holding the separator splits into at least two pieces. */
  lemma {:induction false} SplitAtSeparator(s: string, sep: char)
    requires sep in s
    ensures |Split(s, sep)| >= 2
  {
    if s[0] != sep {
      assert sep in s[1..] by {
        var k :| 0 <= k < |s| && s[k] == sep;
        assert s[1..][k - 1] == sep;
      }
      SplitAtSeparator(s[1..], sep);
    }
  }

  /** `s.split(sep).pop()`. */
  function LastPiece(s: string, sep: char): string {
    var pieces := Split(s, sep);
    pieces[|pieces| - 1]
  }

  /** `r` is the text after the last `sep` of `s`: a suffix of `s` without
      the separator, that is all of `s` or follows a separator. */
  predicate AfterLastSeparator(s: string, sep: char, r: string) {
    && |r| <= |s| && r == s[|s| - |r|..] && sep !in r
    && (|r| == |s| || s[|s| - |r| - 1] == sep)
  }

  /** The last piece is the text after the last separator. */
  lemma {:induction false} LastPieceIsTail(s: string, sep: char)
    ensures AfterLastSeparator(s, sep, LastPiece(s, sep))
  {
    if s != [] {
      var rest := Split(s[1..], sep);
      var r' := LastPiece(s[1..], sep);
      LastPieceIsTail(s[1..], sep);
      if s[0] == sep {
        assert LastPiece(s, sep) == r';
        TailShift(s, sep, r');
      } else if |rest| > 1 {
        assert LastPiece(s, sep) == r';
        if |r'| == |s| - 1 {
          assert r' == s[1..];
          SplitWithoutSeparator(s[1..], sep);
          assert false;
        }
        TailShift(s, sep, r');
      } else {
        assert LastPiece(s, sep) == [s[0]] + r';
        if |r'| < |s| - 1 {
          assert sep in s[1..] by { assert s[1..][|s| - 1 - |r'| - 1] == sep; }
          SplitAtSeparator(s[1..], sep);
          assert false;
        }
        WholeTail(s, sep, r');
      }
    }
  }

  lemma TailShift(s: string, sep: char, r: string)
    requires s != [] && AfterLastSeparator(s[1..], sep, r)
    requires |r| < |s| - 1 || s[0] == sep
    ensures AfterLastSeparator(s, sep, r)
  {
    assert s[1..][|s| - 1 - |r|..] == s[|s| - |r|..];
    if |r| < |s| - 1 {
      assert s[1..][|s| - 1 - |r| - 1] == s[|s| - |r| - 1];
    }
  }

  lemma WholeTail(s: string, sep: char, r: string)
    requires s != [] && s[0] != sep && AfterLastSeparator(s[1..], sep, r) && |r| == |s| - 1
    ensures AfterLastSeparator(s, sep, [s[0]] + r)
  {
    assert r == s[1..];
    assert [s[0]] + s[1..] == s;
  }

  /** `s.replace(/\s+/g, ' ')`: every maximal run of whitespace replaced by
      one space. */
  function CollapseSpaces(s: string): (r: string)
    ensures |r| <= |s|
    decreases |s|
  {
    if s == [] then []
    else if IsSpace(s[0]) then " " + CollapseSpaces(TrimStart(s))
    else [s[0]] + CollapseSpaces(s[1..])
  }

  /** `s.split(/\s+/)`: the pieces between maximal runs of whitespace; a leading
      or trailing run yields an empty first or last piece. The pieces are
      those of splitting at single spaces once every run is collapsed to one
      space. */
  function SplitOnSpaceRuns(s: string): (r: seq<string>)
    ensures r == Split(CollapseSpaces(s), ' ')
    ensures forall i, c | 0 <= i < |r| && c in r[i] :: c in s && !IsSpace(c)
    decreases |s|
  {
    if s == [] then [[]]
    else if IsSpace(s[0]) then
      var t := TrimStart(s);
      var rest := SplitOnSpaceRuns(t);
      assert forall c | c in t :: c in s;
      assert (" " + CollapseSpaces(t))[1..] == CollapseSpaces(t);
      [[]] + rest
    else
      var rest := SplitOnSpaceRuns(s[1..]);
      assert forall c | c in s[1..] :: c in s;
      assert ([s[0]] + CollapseSpaces(s[1..]))[1..] == CollapseSpaces(s[1..]);
      [[s[0]] + rest[0]] + rest[1..]
  }

  function DigitChar(d: nat): (c: char)
    requires d < 10
    ensures '0' <= c <= '9'
  {
    ('0' as int + d) as char
  }

  predicate IsDigits(s: string) {
    forall i | 0 <= i < |s| :: '0' <= s[i] <= '9'
  }

  /** `n.toString()` for a natural number: its shortest decimal digits. */
  function NatToString(n: nat): (r: string)
    ensures |r| >= 1 && IsDigits(r)
  {
    if n < 10 then [DigitChar(n)] else NatToString(n / 10) + [DigitChar(n % 10)]
  }

  /** The number a string of decimal digits denotes. */
  function DecimalValue(s: string): nat
    requires IsDigits(s)
  {
    if s == [] then 0 else DecimalValue(s[..|s| - 1]) * 10 + (s[|s| - 1] as int - '0' as int)
  }

  /** The rendering is read back as the number it renders. */
  lemma {:induction false} DecimalRoundTrip(n: nat)
    ensures DecimalValue(NatToString(n)) == n
  {
    if n >= 10 {
      DecimalRoundTrip(n / 10);
      var s := NatToString(n);
      assert s[..|s| - 1] == NatToString(n / 10);
    }
  }

  /** `n.toString()` for an integer. */
  function IntToString(n: int): (r: string)
    ensures |r| >= 1
    ensures '0' <= r[|r| - 1] <= '9'
    ensures n < 0 <==> r[0] == '-'
  {
    if n < 0 then "-" + NatToString(-n) else NatToString(n)
  }
}
