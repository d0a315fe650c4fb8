/**
 * The string primitives of PHP and Laravel that the compiler's decisions rest on:
 * `empty`, `Str::contains`, `Str::startsWith`, `Str::endsWith`, `explode`, `trim`,
 * `strtolower`, the two `strtr` forms, and PHP's coercion of an integer-like
 * string used as an array key.
 */
module PhpStrings {
  import opened Common

  /** PHP's `empty()` on a string: true for "" and for "0". */
  predicate IsEmpty(s: string) {
    s == "" || s == "0"
  }

  /** `needle` occurs in `s` starting at index `i`. */
  predicate OccursAt(s: string, needle: string, i: int) {
    0 <= i && i + |needle| <= |s| && s[i..i + |needle|] == needle
  }

  /** Laravel's `Str::contains` with one needle: an empty needle is never contained. */
  predicate Contains(s: string, needle: string) {
    needle != "" && exists i | 0 <= i <= |s| - |needle| :: OccursAt(s, needle, i)
  }

  /** Laravel's `Str::startsWith`: false for an empty prefix. */
  predicate StartsWith(s: string, prefix: string) {
    prefix != "" && OccursAt(s, prefix, 0)
  }

  /** Laravel's `Str::endsWith`: false for an empty suffix. */
  predicate EndsWith(s: string, suffix: string) {
    suffix != "" && OccursAt(s, suffix, |s| - |suffix|)
  }

  lemma ContainsChar(s: string, c: char)
    ensures Contains(s, [c]) <==> c in s
  {
    if c in s {
      var i :| 0 <= i < |s| && s[i] == c;
      assert s[i..i + 1] == [c];
      assert OccursAt(s, [c], i);
    }
    if Contains(s, [c]) {
      var i :| 0 <= i <= |s| - 1 && OccursAt(s, [c], i);
      assert s[i] == s[i..i + 1][0];
    }
  }

  // ---------------------------------------------------------------------------
  // explode

  /**
   * PHP's `explode(sep, s)`: the pieces of `s` between the occurrences of `sep`,
   * found left to right without overlap. PHP throws on an empty separator.
   */
  function Explode(sep: string, s: string): (r: seq<string>)
    requires sep != ""
    ensures |r| >= 1
    decreases |s|
  {
    if |s| < |sep| then [s]
    else if s[..|sep|] == sep then [""] + Explode(sep, s[|sep|..])
    else
      var rest := Explode(sep, s[1..]);
      [[s[0]] + rest[0]] + rest[1..]
  }

  /** PHP's `implode(sep, pieces)`. */
  function Join(pieces: seq<string>, sep: string): string {
    if |pieces| == 0 then ""
    else if |pieces| == 1 then pieces[0]
    else pieces[0] + sep + Join(pieces[1..], sep)
  }

  /** Splitting and joining again gives back the original text. */
  lemma {:induction false} ExplodeJoin(sep: string, s: string)
    requires sep != ""
    ensures Join(Explode(sep, s), sep) == s
    decreases |s|
  {
    if |s| < |sep| {
    } else if s[..|sep|] == sep {
      var t := s[|sep|..];
      var rest := Explode(sep, t);
      assert Explode(sep, s) == [""] + rest;
      ExplodeJoin(sep, t);
      JoinCons("", rest, sep);
      assert s == sep + t;
    } else {
      var t := s[1..];
      var rest := Explode(sep, t);
      assert Explode(sep, s) == [[s[0]] + rest[0]] + rest[1..];
      ExplodeJoin(sep, t);
      JoinMergeFirst(s[0], rest, sep);
      assert s == [s[0]] + t;
    }
  }

  lemma JoinCons(head: string, rest: seq<string>, sep: string)
    requires |rest| >= 1
    ensures Join([head] + rest, sep) == head + sep + Join(rest, sep)
  {
    assert ([head] + rest)[1..] == rest;
  }

  lemma JoinMergeFirst(c: char, rest: seq<string>, sep: string)
    requires |rest| >= 1
    ensures Join([[c] + rest[0]] + rest[1..], sep) == [c] + Join(rest, sep)
  {
    var r := [[c] + rest[0]] + rest[1..];
    if |rest| > 1 {
      assert r[1..] == rest[1..];
    }
  }

  /**
   * The first piece is the text before the first occurrence of the separator
   * (all of `s` when there is none), and there are at least two pieces exactly
   * when the separator occurs.
   */
  lemma {:induction false} ExplodeFirst(sep: string, s: string)
    requires sep != ""
    ensures Explode(sep, s)[0] <= s
    ensures forall j :: 0 <= j < |Explode(sep, s)[0]| ==> !OccursAt(s, sep, j)
    ensures |Explode(sep, s)| >= 2 <==> Contains(s, sep)
    ensures |Explode(sep, s)| >= 2 ==> OccursAt(s, sep, |Explode(sep, s)[0]|)
    ensures |Explode(sep, s)| == 1 ==> Explode(sep, s)[0] == s
    decreases |s|
  {
    var r := Explode(sep, s);
    if |s| < |sep| {
    } else if s[..|sep|] == sep {
      assert OccursAt(s, sep, 0);
    } else {
      var t := s[1..];
      var rest := Explode(sep, t);
      ExplodeFirst(sep, t);
      assert r[0] == [s[0]] + rest[0] && |r| == |rest|;
      assert !OccursAt(s, sep, 0);
      forall j | 1 <= j
        ensures OccursAt(s, sep, j) <==> OccursAt(t, sep, j - 1)
      {
        OccursShift(s, sep, j);
      }
      ContainsShift(s, sep);
      if |r| == 1 {
        assert s == [s[0]] + t;
      }
    }
  }

  /** The pieces after the first are the pieces of the text after the first separator. */
  lemma {:induction false} ExplodeTail(sep: string, s: string)
    requires sep != "" && |Explode(sep, s)| >= 2
    ensures |Explode(sep, s)[0]| + |sep| <= |s|
    ensures Explode(sep, s)[1..] == Explode(sep, s[|Explode(sep, s)[0]| + |sep|..])
    decreases |s|
  {
    var r := Explode(sep, s);
    if |s| < |sep| {
      assert false;
    } else if s[..|sep|] == sep {
      var tail := Explode(sep, s[|sep|..]);
      assert r == [""] + tail;
      assert |r[0]| == 0 && r[1..] == tail;
    } else {
      var t := s[1..];
      var rest := Explode(sep, t);
      assert r == [[s[0]] + rest[0]] + rest[1..];
      assert |rest| >= 2 && |r[0]| == 1 + |rest[0]| && r[1..] == rest[1..];
      var k := |rest[0]| + |sep|;
      ExplodeTail(sep, t);
      assert rest[1..] == Explode(sep, t[k..]);
      DropShift(s, k);
      assert t[k..] == s[|r[0]| + |sep|..];
    }
  }

  lemma DropShift(s: string, k: nat)
    requires 1 <= |s| && k + 1 <= |s|
    ensures s[1..][k..] == s[k + 1..]
  {
  }

  /** The second piece is the first piece of the text after the first separator. */
  lemma ExplodeSecond(sep: string, s: string)
    requires sep != "" && |Explode(sep, s)| >= 2
    ensures |Explode(sep, s)[0]| + |sep| <= |s|
    ensures Explode(sep, s)[1] == Explode(sep, s[|Explode(sep, s)[0]| + |sep|..])[0]
  {
    var r := Explode(sep, s);
    ExplodeTail(sep, s);
    assert r[1] == r[1..][0];
  }

  /** When `sep` does not start `s`, it occurs in `s` exactly when it occurs after the first character. */
  lemma ContainsShift(s: string, sep: string)
    requires |s| >= 1 && !OccursAt(s, sep, 0)
    ensures Contains(s, sep) <==> Contains(s[1..], sep)
  {
    if Contains(s, sep) {
      var i :| 0 <= i <= |s| - |sep| && OccursAt(s, sep, i);
      OccursShift(s, sep, i);
    }
    if Contains(s[1..], sep) {
      var i :| 0 <= i <= |s[1..]| - |sep| && OccursAt(s[1..], sep, i);
      OccursShift(s, sep, i + 1);
    }
  }

  lemma OccursShift(s: string, sep: string, j: int)
    requires |s| >= 1 && 1 <= j
    ensures OccursAt(s, sep, j) <==> OccursAt(s[1..], sep, j - 1)
  {
    if j + |sep| <= |s| {
      var t := s[1..];
      var a, b := s[j..j + |sep|], t[j - 1..j - 1 + |sep|];
      assert |a| == |b| == |sep|;
      forall k | 0 <= k < |sep| ensures a[k] == b[k] {
        assert a[k] == s[j + k];
        assert b[k] == t[j - 1 + k] == s[j + k];
      }
      assert a == b;
    }
  }

  /** No piece contains the separator. */
  lemma {:induction false} ExplodePiecesFree(sep: string, s: string)
    requires sep != ""
    ensures forall k :: 0 <= k < |Explode(sep, s)| ==> !Contains(Explode(sep, s)[k], sep)
    decreases |s|
  {
    var r := Explode(sep, s);
    ExplodeFirst(sep, s);
    if Contains(r[0], sep) {
      var j :| 0 <= j <= |r[0]| - |sep| && OccursAt(r[0], sep, j);
      assert r[0][j..j + |sep|] == s[j..j + |sep|];
      assert OccursAt(s, sep, j);
    }
    if |s| < |sep| {
    } else if s[..|sep|] == sep {
      var rest := Explode(sep, s[|sep|..]);
      assert r == [""] + rest;
      ExplodePiecesFree(sep, s[|sep|..]);
      assert forall k :: 1 <= k < |r| ==> r[k] == rest[k - 1];
    } else {
      var rest := Explode(sep, s[1..]);
      assert r == [[s[0]] + rest[0]] + rest[1..];
      ExplodePiecesFree(sep, s[1..]);
      assert forall k :: 1 <= k < |r| ==> r[k] == rest[k];
    }
  }

  // ---------------------------------------------------------------------------
  // trim

  /** The characters PHP's `trim` strips when no list is given. */
  const Whitespace: set<char> := {' ', '\t', '\n', '\r', '\0', '\U{B}'}

  /** The first index at or after `i` whose character is not in `cs`, or `|s|`. */
  function SkipFrom(s: string, cs: set<char>, i: nat): (a: nat)
    requires i <= |s|
    ensures i <= a <= |s|
    ensures forall k :: i <= k < a ==> s[k] in cs
    ensures a == |s| || s[a] !in cs
    decreases |s| - i
  {
    if i < |s| && s[i] in cs then SkipFrom(s, cs, i + 1) else i
  }

  /** The end of `s[..j]` once the characters of `cs` are stripped from its right, never going below `a`. */
  function BackFrom(s: string, cs: set<char>, a: nat, j: nat): (b: nat)
    requires a <= j <= |s|
    ensures a <= b <= j
    ensures forall k :: b <= k < j ==> s[k] in cs
    ensures b == a || s[b - 1] !in cs
    decreases j
  {
    if j > a && s[j - 1] in cs then BackFrom(s, cs, a, j - 1) else j
  }

  /** `r` is the part of `s` from index `a` on, with only characters of `cs` around it. */
  ghost predicate TrimmedFrom(s: string, r: string, a: int, cs: set<char>) {
    0 <= a && a + |r| <= |s| && r == s[a..a + |r|]
    && (forall i :: 0 <= i < a ==> s[i] in cs)
    && (forall i :: a + |r| <= i < |s| ==> s[i] in cs)
  }

  /** PHP's `trim(s, cs)`: strips the characters of `cs` from both ends. */
  function Trim(s: string, cs: set<char>): string {
    var a := SkipFrom(s, cs, 0);
    s[a..BackFrom(s, cs, a, |s|)]
  }

  /** The trimmed text is a slice of `s` whose ends are not in `cs`, with only characters of `cs` cut away around it. */
  lemma TrimShape(s: string, cs: set<char>)
    ensures TrimmedFrom(s, Trim(s, cs), SkipFrom(s, cs, 0), cs)
    ensures var r := Trim(s, cs); r == [] || (r[0] !in cs && r[|r| - 1] !in cs)
  {
    var a := SkipFrom(s, cs, 0);
    var b := BackFrom(s, cs, a, |s|);
    var r := s[a..b];
    assert |r| == b - a;
    assert r != [] ==> r[0] == s[a] && r[|r| - 1] == s[b - 1];
  }

  /** Trimming again changes nothing. */
  lemma TrimIdempotent(s: string, cs: set<char>)
    ensures Trim(Trim(s, cs), cs) == Trim(s, cs)
  {
  }

  /** A trimmed string holds only characters of the string it came from. */
  lemma TrimKeepsChars(s: string, cs: set<char>, c: char)
    requires c in Trim(s, cs)
    ensures c in s
  {
    TrimShape(s, cs);
    var r := Trim(s, cs);
    var a := SkipFrom(s, cs, 0);
    var k :| 0 <= k < |r| && r[k] == c;
    assert s[a + k] == c;
  }

  // ---------------------------------------------------------------------------
  // strtolower

  function LowerChar(c: char): char {
    if 'A' <= c <= 'Z' then (c as int + 32) as char else c
  }

  /** `strtolower` as in PHP 8.2 and later, which maps ASCII letters only (earlier versions follow the locale). */
  function ToLower(s: string): (r: string)
    ensures |r| == |s|
    ensures forall i :: 0 <= i < |s| ==> r[i] == LowerChar(s[i])
    ensures forall i :: 0 <= i < |r| ==> !('A' <= r[i] <= 'Z')
  {
    if s == [] then [] else [LowerChar(s[0])] + ToLower(s[1..])
  }

  // ---------------------------------------------------------------------------
  // strtr(s, '/-', '-/')

  function SwapChar(c: char): char {
    if c == '/' then '-' else if c == '-' then '/' else c
  }

  /** `strtr(s, '/-', '-/')`: every '/' becomes '-' and every '-' becomes '/'. */
  function SwapSeparators(s: string): (r: string)
    ensures |r| == |s|
    ensures forall i :: 0 <= i < |s| ==> r[i] == SwapChar(s[i])
  {
    if s == [] then [] else [SwapChar(s[0])] + SwapSeparators(s[1..])
  }

  /** Swapping twice gives back the original value. */
  lemma SwapInvolution(s: string)
    ensures SwapSeparators(SwapSeparators(s)) == s
  {
    var r := SwapSeparators(SwapSeparators(s));
    assert forall i :: 0 <= i < |s| ==> r[i] == s[i];
  }

  /** The swap changes the value exactly when it holds a '/' or a '-'. */
  lemma SwapChanges(s: string)
    ensures SwapSeparators(s) != s <==> ('/' in s || '-' in s)
  {
    var r := SwapSeparators(s);
    if '/' in s || '-' in s {
      var i :| 0 <= i < |s| && (s[i] == '/' || s[i] == '-');
      assert r[i] != s[i];
    } else {
      assert forall i :: 0 <= i < |s| ==> r[i] == s[i];
    }
  }

  // ---------------------------------------------------------------------------
  // strtr(format, ['d' => '%d', 'j' => '%e', 'm' => '%m', 'Y' => '%Y', 'y' => '%y'])

  /** What one character of a PHP date format becomes in an SQL date format. */
  function FormatToken(c: char): string {
    match c
    case 'd' => "%d"
    case 'j' => "%e"
    case 'm' => "%m"
    case 'Y' => "%Y"
    case 'y' => "%y"
    case _ => [c]
  }

  /** The display format translated character by character; all keys are single characters. */
  function SqlDateFormat(f: string): (r: string)
    ensures |r| >= |f|
  {
    if f == [] then "" else FormatToken(f[0]) + SqlDateFormat(f[1..])
  }

  /** The translation works piece by piece. */
  lemma {:induction false} SqlDateFormatConcat(a: string, b: string)
    ensures SqlDateFormat(a + b) == SqlDateFormat(a) + SqlDateFormat(b)
  {
    if a == [] {
      assert a + b == b;
    } else {
      assert (a + b)[0] == a[0];
      assert (a + b)[1..] == a[1..] + b;
      SqlDateFormatConcat(a[1..], b);
    }
  }

  /** A format without any of the five letters is left unchanged. */
  lemma {:induction false} SqlDateFormatKeeps(f: string)
    requires forall i :: 0 <= i < |f| ==> f[i] !in {'d', 'j', 'm', 'Y', 'y'}
    ensures SqlDateFormat(f) == f
  {
    if f != [] {
      SqlDateFormatKeeps(f[1..]);
    }
  }

  // ---------------------------------------------------------------------------
  // PHP array keys

  predicate IsDigit(c: char) {
    '0' <= c <= '9'
  }

  function DigitValue(c: char): nat
    requires IsDigit(c)
  {
    c as int - '0' as int
  }

  function DigitChar(d: nat): char
    requires d < 10
  {
    ('0' as int + d) as char
  }

  /**
   * A string PHP turns into an integer array key: digits only, no leading zero
   * except in "0" itself. Other strings (and negative numbers) cannot index a list.
   */
  predicate IsCanonicalIndex(s: string) {
    |s| > 0 && (forall i :: 0 <= i < |s| ==> IsDigit(s[i])) && (s[0] == '0' ==> |s| == 1)
  }

  function DecimalValue(s: string): nat
    requires forall i :: 0 <= i < |s| ==> IsDigit(s[i])
  {
    if s == [] then 0 else 10 * DecimalValue(s[..|s| - 1]) + DigitValue(s[|s| - 1])
  }

  /** The decimal text of `n`, as PHP prints an integer. */
  function Decimal(n: nat): (s: string)
    ensures |s| > 0 && forall i :: 0 <= i < |s| ==> IsDigit(s[i])
    ensures s[0] == '0' <==> n == 0
  {
    if n < 10 then [DigitChar(n)] else Decimal(n / 10) + [DigitChar(n % 10)]
  }

  /** The list position an array key `s` names, if any. */
  function ParseIndex(s: string): Option<nat> {
    if IsCanonicalIndex(s) then Some(DecimalValue(s)) else None
  }

  /** Every position can be named, by its decimal text. */
  lemma {:induction false} DecimalRoundTrip(n: nat)
    ensures ParseIndex(Decimal(n)) == Some(n)
  {
    var s := Decimal(n);
    if n >= 10 {
      var init := Decimal(n / 10);
      var d := DigitChar(n % 10);
      assert s == init + [d];
      DecimalRoundTrip(n / 10);
      assert IsCanonicalIndex(init) && DecimalValue(init) == n / 10;
      assert s[..|s| - 1] == init && s[|s| - 1] == d;
      assert DigitValue(d) == n % 10;
      assert DecimalValue(s) == 10 * DecimalValue(init) + DigitValue(d);
      assert IsCanonicalIndex(s);
    } else {
      assert s == [DigitChar(n)];
      assert s[..|s| - 1] == [];
      assert DigitValue(DigitChar(n)) == n;
      assert DecimalValue(s) == 10 * DecimalValue([]) + DigitValue(s[0]);
    }
  }

  lemma {:induction false} LeadingDigitPositive(s: string)
    requires |s| > 0 && (forall i :: 0 <= i < |s| ==> IsDigit(s[i])) && s[0] != '0'
    ensures DecimalValue(s) >= 1
  {
    if |s| > 1 {
      LeadingDigitPositive(s[..|s| - 1]);
    }
  }

  lemma DivideByTen(v: nat, d: nat)
    requires d < 10
    ensures (10 * v + d) / 10 == v && (10 * v + d) % 10 == d
  {
  }

  /** A key names a position only when it is that position's decimal text. */
  lemma {:induction false} ParseIndexCanonical(s: string)
    requires ParseIndex(s).Some?
    ensures Decimal(ParseIndex(s).value) == s
    decreases |s|
  {
    var n := DecimalValue(s);
    if |s| == 1 {
      assert s[..|s| - 1] == [];
      assert DecimalValue(s[..|s| - 1]) == 0;
      assert n == DigitValue(s[0]) < 10;
      assert DigitChar(DigitValue(s[0])) == s[0];
      assert s == [s[0]];
    } else {
      var init := s[..|s| - 1];
      assert IsCanonicalIndex(init);
      LeadingDigitPositive(init);
      ParseIndexCanonical(init);
      var d := DigitValue(s[|s| - 1]);
      assert s != [] && s[..|s| - 1] == init;
      assert n == 10 * DecimalValue(init) + d;
      DivideByTen(DecimalValue(init), d);
      assert DigitChar(d) == s[|s| - 1];
      assert s == init + [s[|s| - 1]];
    }
  }
}
