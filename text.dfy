/**
  The few Python `str` operations the daemon relies on, over `string`
  (`seq<char>`): `startswith`, `find`, `split`, `join`, `replace`, `strip`,
  `str(int)`, reading a text file line by line, and the decimal parsing that
  stands in for `float()` and `datetime.fromisoformat`.
*/
module Text {
  import opened Wrappers

  // ---------------------------------------------------------------------
  // Characters
  // ---------------------------------------------------------------------

  /** `c.isspace()`: the characters `str.strip()` removes. */
  predicate IsSpace(c: char) {
    || c in {' ', '\t', '\n', '\r', '\U{0B}', '\U{0C}', '\U{1C}', '\U{1D}', '\U{1E}', '\U{1F}',
             '\U{85}', '\U{A0}', '\U{1680}', '\U{2028}', '\U{2029}', '\U{202F}', '\U{205F}', '\U{3000}'}
    || ('\U{2000}' <= c <= '\U{200A}')
  }

  /** The characters that end a line when a file is read in text mode (universal newlines). */
  predicate IsLineBreak(c: char) {
    c == '\n' || c == '\r'
  }

  predicate IsDigit(c: char) {
    '0' <= c <= '9'
  }

  predicate AllDigits(s: string) {
    forall i :: 0 <= i < |s| ==> IsDigit(s[i])
  }

  predicate NoLineBreak(s: string) {
    '\n' !in s && '\r' !in s
  }

  // ---------------------------------------------------------------------
  // Searching and splitting
  // ---------------------------------------------------------------------

  /** `s.startswith(p)` */
  predicate StartsWith(s: string, p: string) {
    |p| <= |s| && s[..|p|] == p
  }

  /** `p` occurs in `s` at index `i`. */
  predicate MatchAt(s: string, p: string, i: nat) {
    i + |p| <= |s| && s[i..i + |p|] == p
  }

  /** `s.find(p, i)`: the first occurrence of `p` at or after `i`. */
  function FindFrom(s: string, p: string, i: nat): (r: Option<nat>)
    requires i <= |s|
    decreases |s| - i
    ensures r.Some? ==> i <= r.value && MatchAt(s, p, r.value)
    ensures r.Some? ==> forall j :: i <= j < r.value ==> !MatchAt(s, p, j)
    ensures r.None? ==> forall j :: i <= j <= |s| ==> !MatchAt(s, p, j)
  {
    if i + |p| > |s| then None
    else if MatchAt(s, p, i) then Some(i)
    else FindFrom(s, p, i + 1)
  }

  function Find(s: string, p: string): Option<nat> {
    FindFrom(s, p, 0)
  }

  /** `s.split(sep)` for a non-empty separator: the pieces between the
      non-overlapping occurrences of `sep`, found from the left. */
  function Split(s: string, sep: string): (parts: seq<string>)
    requires sep != []
    decreases |s|
    ensures |parts| >= 1
  {
    match Find(s, sep)
    case None => [s]
    case Some(i) => [s[..i]] + Split(s[i + |sep|..], sep)
  }

  /** `sep.join(parts)` */
  function Join(parts: seq<string>, sep: string): string {
    if parts == [] then []
    else if |parts| == 1 then parts[0]
    else parts[0] + sep + Join(parts[1..], sep)
  }

  /** `s.replace(target, replacement)` for a non-empty `target`: every non-overlapping
      occurrence, from the left, is replaced. */
  function Replace(s: string, target: string, replacement: string): string
    requires target != []
  {
    Join(Split(s, target), replacement)
  }

  // Regrouping concatenations, stated once for any sequences.

  lemma Regroup3<T>(a: seq<T>, b: seq<T>, c: seq<T>)
    ensures a + b + c == a + (b + c)
  {
  }

  lemma Regroup4<T>(a: seq<T>, b: seq<T>, c: seq<T>, d: seq<T>)
    ensures a + b + c + d == a + (b + c + d)
  {
  }

  lemma Regroup<T>(a: seq<T>, b: seq<T>, c: seq<T>, d: seq<T>, e: seq<T>)
    ensures a + b + c + d + e == a + (b + (c + d + e))
  {
  }

  lemma Regroup6<T>(a: seq<T>, b: seq<T>, c: seq<T>, d: seq<T>, e: seq<T>, g: seq<T>)
    ensures a + b + c + d + e + g == a + (b + c + (d + (e + g)))
  {
  }

  lemma TailSnoc<T>(s: seq<T>, x: T)
    requires s != []
    ensures (s + [x])[0] == s[0] && (s + [x])[1..] == s[1..] + [x]
  {
  }

  lemma ConcatAssoc<T>(a: seq<T>, b: seq<T>, c: seq<T>)
    ensures a + (b + c) == (a + b) + c
  {
  }

  /** The positions of a sequence with one element added at each end. */
  lemma Bracketed<T>(h: T, xs: seq<T>, z: T)
    ensures |[h] + xs + [z]| == |xs| + 2
    ensures ([h] + xs + [z])[0] == h && ([h] + xs + [z])[|xs| + 1] == z
    ensures forall i :: 0 <= i < |xs| ==> ([h] + xs + [z])[i + 1] == xs[i]
  {
  }

  lemma TakeSnoc<T>(s: seq<T>, i: nat)
    requires i < |s|
    ensures s[..i + 1] == s[..i] + [s[i]]
  {
  }

  lemma HeadTail<T>(s: seq<T>)
    requires s != []
    ensures [s[0]] + s[1..] == s
  {
  }

  /** Splitting at an occurrence of `sep` that is the first one in the string. */
  lemma SplitAtFirst(a: string, sep: string, b: string)
    requires sep != []
    requires forall j :: 0 <= j < |a| ==> !MatchAt(a + sep + b, sep, j)
    ensures Split(a + sep + b, sep) == [a] + Split(b, sep)
  {
    var s := a + sep + b;
    assert MatchAt(s, sep, |a|) by {
      assert s[|a|..|a| + |sep|] == sep;
    }
    assert Find(s, sep) == Some(|a|);
    assert s[..|a|] == a;
    assert s[|a| + |sep|..] == b;
  }

  /** A string with no occurrence of `sep` is not split. */
  lemma SplitNoMatch(s: string, sep: string)
    requires sep != []
    requires forall j :: 0 <= j <= |s| ==> !MatchAt(s, sep, j)
    ensures Split(s, sep) == [s]
  {
  }

  /** Splitting at a separator whose first character the leading piece lacks. */
  lemma SplitAtHead(a: string, sep: string, b: string)
    requires sep != [] && sep[0] !in a
    ensures Split(a + sep + b, sep) == [a] + Split(b, sep)
  {
    var s := a + sep + b;
    forall j | 0 <= j < |a| ensures !MatchAt(s, sep, j) {
      assert s[j] == a[j] && a[j] in a;
      if j + |sep| <= |s| {
        assert s[j..j + |sep|][0] == s[j];
      }
    }
    SplitAtFirst(a, sep, b);
  }

  /** A string lacking the separator's first character is not split. */
  lemma SplitWithoutHead(b: string, sep: string)
    requires sep != [] && sep[0] !in b
    ensures Split(b, sep) == [b]
  {
    forall j | 0 <= j <= |b| ensures !MatchAt(b, sep, j) {
      if j + |sep| <= |b| {
        assert b[j..j + |sep|][0] == b[j] && b[j] in b;
      }
    }
    SplitNoMatch(b, sep);
  }

  /** Splitting at `" | "` when the leading piece has no bar. */
  lemma SplitAtBar(a: string, b: string)
    requires '|' !in a
    ensures Split(a + " | " + b, " | ") == [a] + Split(b, " | ")
  {
    var s := a + " | " + b;
    forall j | 0 <= j < |a| ensures !MatchAt(s, " | ", j) {
      if j + 3 <= |s| {
        assert s[j..j + 3][1] == s[j + 1];
        if j + 1 < |a| {
          assert s[j + 1] == a[j + 1] && a[j + 1] in a;
        } else {
          assert s[j + 1] == ' ';
        }
      }
    }
    SplitAtFirst(a, " | ", b);
  }

  /** A string without a bar is not split at `" | "`. */
  lemma SplitWithoutBar(b: string)
    requires '|' !in b
    ensures Split(b, " | ") == [b]
  {
    forall j | 0 <= j <= |b| ensures !MatchAt(b, " | ", j) {
      if j + 3 <= |b| {
        assert b[j..j + 3][1] == b[j + 1] && b[j + 1] in b;
      }
    }
    SplitNoMatch(b, " | ");
  }

  // ---------------------------------------------------------------------
  // Stripping
  // ---------------------------------------------------------------------

  /** `s.lstrip()`: what is left of `s` after its leading whitespace. */
  function LStrip(s: string): (r: string)
    ensures r == [] || !IsSpace(r[0])
  {
    if s != [] && IsSpace(s[0]) then LStrip(s[1..]) else s
  }

  /** `s.rstrip()`: what is left of `s` before its trailing whitespace. */
  function RStrip(s: string): (r: string)
    ensures r == [] || !IsSpace(r[|r| - 1])
  {
    if s != [] && IsSpace(s[|s| - 1]) then RStrip(s[..|s| - 1]) else s
  }

  /** What `lstrip` keeps is a tail of the string. */
  lemma {:induction false} LStripSuffix(s: string)
    ensures |LStrip(s)| <= |s| && LStrip(s) == s[|s| - |LStrip(s)|..]
  {
    if s != [] && IsSpace(s[0]) {
      LStripSuffix(s[1..]);
    }
  }

  /** What `rstrip` keeps is a head of the string. */
  lemma {:induction false} RStripPrefix(s: string)
    ensures |RStrip(s)| <= |s| && RStrip(s) == s[..|RStrip(s)|]
  {
    if s != [] && IsSpace(s[|s| - 1]) {
      RStripPrefix(s[..|s| - 1]);
    }
  }

  /** `s.strip()` */
  function Strip(s: string): string {
    RStrip(LStrip(s))
  }

  /** A string that neither starts nor ends with whitespace is its own strip. */
  lemma StripClean(s: string)
    requires s == [] || (!IsSpace(s[0]) && !IsSpace(s[|s| - 1]))
    ensures Strip(s) == s
  {
  }

  /** What stripping keeps is a piece of the string: it can only start with
      a character the string holds. */
  lemma StripStartsWithin(s: string, p: string)
    requires p != [] && p[0] !in s
    ensures !StartsWith(Strip(s), p)
  {
    var l := LStrip(s);
    var r := Strip(s);
    LStripSuffix(s);
    RStripPrefix(l);
    if r != [] {
      assert r[0] == l[0];
      assert l[0] == s[|s| - |l|];
    }
  }

  lemma NotStartsWith(s: string, p: string)
    requires p != [] && (s == [] || s[0] != p[0])
    ensures !StartsWith(s, p)
  {
    if |p| <= |s| {
      assert s[..|p|][0] == s[0];
    }
  }

  /** Stripping keeps a leading character that is not whitespace. */
  lemma StripKeepsHead(s: string)
    requires s != [] && !IsSpace(s[0])
    ensures Strip(s) != [] && Strip(s)[0] == s[0]
  {
    assert LStrip(s) == s;
    RStripKeepsHead(s);
  }

  lemma {:induction false} RStripKeepsHead(s: string)
    requires s != [] && !IsSpace(s[0])
    ensures RStrip(s) != [] && RStrip(s)[0] == s[0]
  {
    if IsSpace(s[|s| - 1]) {
      RStripKeepsHead(s[..|s| - 1]);
    }
  }

  // ---------------------------------------------------------------------
  // Lines of a text file
  // ---------------------------------------------------------------------

  /** Number of characters before the first line break (or the whole string). */
  function LineLength(s: string): (n: nat)
    ensures n <= |s|
    ensures forall j :: 0 <= j < n ==> !IsLineBreak(s[j])
    ensures n < |s| ==> IsLineBreak(s[n])
  {
    if s == [] || IsLineBreak(s[0]) then 0 else 1 + LineLength(s[1..])
  }

  /** The lines `for line in f` yields, each without its line break. A
      carriage return followed by a newline yields one extra empty line here;
      every reader in the daemon strips lines and skips or ignores empty ones. */
  function Lines(s: string): seq<string>
    decreases |s|
  {
    if s == [] then []
    else
      var n := LineLength(s);
      if n == |s| then [s] else [s[..n]] + Lines(s[n + 1..])
  }

  /** What writing each string followed by `"\n"` puts in a file. */
  function Unlines(ls: seq<string>): string {
    if ls == [] then [] else ls[0] + "\n" + Unlines(ls[1..])
  }

  lemma {:induction false} UnlinesAppend(a: seq<string>, b: seq<string>)
    ensures Unlines(a + b) == Unlines(a) + Unlines(b)
  {
    if a == [] {
      assert a + b == b;
    } else {
      assert (a + b)[0] == a[0];
      assert (a + b)[1..] == a[1..] + b;
      UnlinesAppend(a[1..], b);
    }
  }

  /** Reading back what was written line by line gives the same lines, as
      long as no line holds a line break of its own. */
  lemma {:induction false} LinesOfUnlines(ls: seq<string>, rest: string)
    requires forall i :: 0 <= i < |ls| ==> NoLineBreak(ls[i])
    ensures Lines(Unlines(ls) + rest) == ls + Lines(rest)
  {
    if ls != [] {
      var l, more := ls[0], ls[1..];
      assert Unlines(ls) == l + "\n" + Unlines(more);
      Regroup3(l + "\n", Unlines(more), rest);
      LinesCons(l, Unlines(more) + rest);
      LinesOfUnlines(more, rest);
      Regroup3([l], more, Lines(rest));
      HeadTail(ls);
    } else {
      assert Unlines(ls) + rest == rest;
    }
  }

  /** A line followed by a line break is the first line read. */
  lemma LinesCons(l: string, rest: string)
    requires NoLineBreak(l)
    ensures Lines(l + "\n" + rest) == [l] + Lines(rest)
  {
    var s := l + "\n" + rest;
    LineLengthAt(l, "\n" + rest);
    assert s == l + ("\n" + rest);
    assert s[..|l|] == l;
    assert s[|l| + 1..] == rest;
  }

  lemma LineLengthAt(l: string, t: string)
    requires NoLineBreak(l) && t != [] && IsLineBreak(t[0])
    ensures LineLength(l + t) == |l|
  {
    var s := l + t;
    assert forall j :: 0 <= j < |l| ==> !IsLineBreak(s[j]) by {
      forall j | 0 <= j < |l| ensures !IsLineBreak(s[j]) {
        assert s[j] == l[j] && l[j] in l;
      }
    }
    assert IsLineBreak(s[|l|]);
  }

  // ---------------------------------------------------------------------
  // Decimal numbers
  // ---------------------------------------------------------------------

  function DigitChar(d: nat): (c: char)
    requires d < 10
    ensures IsDigit(c)
  {
    "0123456789"[d]
  }

  function DigitValue(c: char): (d: nat)
    requires IsDigit(c)
    ensures d < 10
  {
    (c as int - '0' as int)
  }

  /** The number a string of decimal digits denotes. */
  function DigitsValue(s: string): nat
    requires AllDigits(s)
  {
    if s == [] then 0 else DigitsValue(s[..|s| - 1]) * 10 + DigitValue(s[|s| - 1])
  }

  /** `str(n)` for a natural number: its decimal digits, without leading zeros. */
  function NatToText(n: nat): (r: string)
    ensures r != [] && IsDigit(r[0]) && IsDigit(r[|r| - 1])
  {
    if n < 10 then [DigitChar(n)] else NatToText(n / 10) + [DigitChar(n % 10)]
  }

  /** `str(n)` is all digits, denotes `n` and has no leading zero. */
  lemma {:induction false} NatTextFacts(n: nat)
    ensures AllDigits(NatToText(n)) && DigitsValue(NatToText(n)) == n
    ensures NatToText(n)[0] == '0' ==> NatToText(n) == "0"
  {
    if n >= 10 {
      NatTextFacts(n / 10);
      var r := NatToText(n);
      assert r[..|r| - 1] == NatToText(n / 10);
    }
  }

  /** A string of digits, possibly after a minus sign, read as an integer:
      the stand-in for `float(text)` on whole numbers and for parsing a
      timestamp back from its text. Anything else is an error (`None`). */
  function ParseIntText(s: string): Option<int> {
    if s != [] && s[0] == '-' then
      if |s| > 1 && AllDigits(s[1..]) then Some(0 - DigitsValue(s[1..]) as int) else None
    else if s != [] && AllDigits(s) then Some(DigitsValue(s))
    else None
  }

  /** `float(text)` on a whole number: like `ParseIntText`, and a leading
      plus sign is also accepted. */
  function FloatText(s: string): Option<int> {
    if s != [] && s[0] == '+' then
      if |s| > 1 && AllDigits(s[1..]) then Some(DigitsValue(s[1..])) else None
    else ParseIntText(s)
  }

  /** A plus sign in front of digits changes nothing, while a second sign
      is refused. */
  lemma PlusSign(s: string)
    requires s != [] && AllDigits(s)
    ensures FloatText("+" + s) == FloatText(s) == Some(DigitsValue(s))
    ensures FloatText("+-" + s) == None && FloatText("-+" + s) == None
  {
    assert ("+" + s)[1..] == s;
    assert !IsDigit('-') && !IsDigit('+');
    assert ("+-" + s)[1..][0] == '-';
    assert ("-+" + s)[1..][0] == '+';
  }

  /** `c * n` */
  function Repeat(c: char, n: nat): (r: string)
    ensures |r| == n && forall j :: 0 <= j < n ==> r[j] == c
  {
    if n == 0 then [] else [c] + Repeat(c, n - 1)
  }

  /** `str(i)`: an optional minus sign and the decimal digits. */
  function IntToText(i: int): (r: string)
    ensures r != [] && (r[0] == '-' || IsDigit(r[0])) && IsDigit(r[|r| - 1])
  {
    if i < 0 then "-" + NatToText(-i) else NatToText(i)
  }

  /** `str(i)` holds nothing but a minus sign and digits. */
  lemma IntTextChars(i: int)
    ensures forall j :: 0 <= j < |IntToText(i)| ==> IntToText(i)[j] == '-' || IsDigit(IntToText(i)[j])
  {
    NatTextFacts(if i < 0 then -i else i);
  }

  /** Reading `str(i)` back gives `i`, whether as an integer or through
      `float`. */
  lemma IntTextRoundTrip(i: int)
    ensures ParseIntText(IntToText(i)) == Some(i)
    ensures FloatText(IntToText(i)) == Some(i)
  {
    NatTextFacts(if i < 0 then -i else i);
    if i < 0 {
      var r := IntToText(i);
      assert r[1..] == NatToText(-i);
    }
  }
}
