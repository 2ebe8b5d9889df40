/** The few Python `str` operations the modelled code relies on, stated over
    Dafny strings (sequences of Unicode scalar values, which is what a Python
    `str` read from a UTF-8 file or an HTTP body holds). */
module PyStr {

  /** The characters for which Python's `str.isspace()` holds. `str.strip()`
      with no argument, `str.splitlines()` callers and the `\s` class of `re`
      on a `str` pattern all use this set. */
  const WHITESPACE: set<char> := {
    '\t', '\n', '\U{B}', '\U{C}', '\r', '\U{1C}', '\U{1D}', '\U{1E}', '\U{1F}', ' ',
    '\U{85}', '\U{A0}', '\U{1680}',
    '\U{2000}', '\U{2001}', '\U{2002}', '\U{2003}', '\U{2004}', '\U{2005}',
    '\U{2006}', '\U{2007}', '\U{2008}', '\U{2009}', '\U{200A}',
    '\U{2028}', '\U{2029}', '\U{202F}', '\U{205F}', '\U{3000}'
  }

  /** The characters at which `str.splitlines()` ends a line; a "\r\n" pair
      ends a single line. */
  const LINE_BREAKS: set<char> := {
    '\n', '\r', '\U{B}', '\U{C}', '\U{1C}', '\U{1D}', '\U{1E}', '\U{85}', '\U{2028}', '\U{2029}'
  }

  /** The ASCII decimal digits (the part of `re`'s `\d` this model handles). */
  const DIGITS: set<char> := {'0', '1', '2', '3', '4', '5', '6', '7', '8', '9'}

  predicate IsSpace(c: char) { c in WHITESPACE }

  predicate StartsWith(s: string, prefix: string) { prefix <= s }

  /** Python's `sub in s`. */
  predicate Contains(s: string, sub: string) {
    exists i :: 0 <= i <= |s| && sub <= s[i..]
  }

  /** Length of the longest prefix of `s` made only of characters in `cs`. */
  function RunLength(s: string, cs: set<char>): (n: nat)
    ensures n <= |s|
    ensures forall i :: 0 <= i < n ==> s[i] in cs
    ensures n < |s| ==> s[n] !in cs
  {
    if s != [] && s[0] in cs then 1 + RunLength(s[1..], cs) else 0
  }

  /** Length of the longest suffix of `s` made only of characters in `cs`. */
  function RunLengthRight(s: string, cs: set<char>): (n: nat)
    ensures n <= |s|
    ensures forall i :: |s| - n <= i < |s| ==> s[i] in cs
    ensures n < |s| ==> s[|s| - 1 - n] !in cs
  {
    if s != [] && s[|s| - 1] in cs then 1 + RunLengthRight(s[..|s| - 1], cs) else 0
  }

  /** Index of the first character of `s` that is in `cs`, or `|s|` if none is. */
  function FirstIn(s: string, cs: set<char>): (n: nat)
    ensures n <= |s|
    ensures forall i :: 0 <= i < n ==> s[i] !in cs
    ensures n < |s| ==> s[n] in cs
  {
    if s == [] || s[0] in cs then 0 else 1 + FirstIn(s[1..], cs)
  }

  /** Python's `s.lstrip(chars)`. */
  function TrimLeft(s: string, cs: set<char>): (r: string)
    ensures |r| <= |s| && r == s[|s| - |r|..]
    ensures forall i :: 0 <= i < |s| - |r| ==> s[i] in cs
    ensures r == [] || r[0] !in cs
  {
    s[RunLength(s, cs)..]
  }

  /** Python's `s.rstrip(chars)`. */
  function TrimRight(s: string, cs: set<char>): (r: string)
    ensures |r| <= |s| && r == s[..|r|]
    ensures forall i :: |r| <= i < |s| ==> s[i] in cs
    ensures r == [] || r[|r| - 1] !in cs
    decreases |s|
  {
    if s != [] && s[|s| - 1] in cs then TrimRight(s[..|s| - 1], cs) else s
  }

  /** Python's `s.strip(chars)`: drop characters in `cs` from the front,
      then from the back. */
  function Trim(s: string, cs: set<char>): (r: string)
    ensures r == [] || (r[0] !in cs && r[|r| - 1] !in cs)
    ensures |r| <= |s|
    decreases |s|
  {
    if s != [] && s[0] in cs then Trim(s[1..], cs) else TrimRight(s, cs)
  }

  /** Python's `s.strip()`. */
  function Strip(s: string): (r: string)
    ensures r == [] || (!IsSpace(r[0]) && !IsSpace(r[|r| - 1]))
  {
    Trim(s, WHITESPACE)
  }

  /** The trim of `s` is the infix that starts after the leading run of
      characters in `cs` and is followed only by characters in `cs`. */
  lemma {:induction false} TrimIsInfix(s: string, cs: set<char>)
    ensures RunLength(s, cs) + |Trim(s, cs)| <= |s|
    ensures Trim(s, cs) == s[RunLength(s, cs)..RunLength(s, cs) + |Trim(s, cs)|]
    ensures forall k :: RunLength(s, cs) + |Trim(s, cs)| <= k < |s| ==> s[k] in cs
    decreases |s|
  {
    if s != [] && s[0] in cs {
      var tail := s[1..];
      TrimIsInfix(tail, cs);
      var a := RunLength(tail, cs);
      var r := Trim(tail, cs);
      assert RunLength(s, cs) == a + 1 && Trim(s, cs) == r;
      assert tail[a..a + |r|] == s[a + 1..a + 1 + |r|];
      assert forall k :: a + 1 + |r| <= k < |s| ==> s[k] == tail[k - 1];
    }
  }

  /** Trimming twice removes nothing more. */
  lemma TrimIdempotent(s: string, cs: set<char>)
    ensures Trim(Trim(s, cs), cs) == Trim(s, cs)
  {
    TrimOfTrimmed(Trim(s, cs), cs);
  }

  /** A string that neither starts nor ends with a character of `cs` is its
      own trim. */
  lemma TrimOfTrimmed(s: string, cs: set<char>)
    requires s == [] || (s[0] !in cs && s[|s| - 1] !in cs)
    ensures Trim(s, cs) == s
  {
  }

  /** TrimRight keeps exactly the prefix followed only by characters of
      `cs` whose own last character is not in `cs`. */
  lemma {:induction false} TrimRightUnique(s: string, cs: set<char>, j: nat)
    requires j <= |s|
    requires forall k :: j <= k < |s| ==> s[k] in cs
    requires j == 0 || s[j - 1] !in cs
    ensures TrimRight(s, cs) == s[..j]
    decreases |s|
  {
    if j < |s| {
      var init := s[..|s| - 1];
      assert forall k :: j <= k < |init| ==> init[k] == s[k];
      TrimRightUnique(init, cs, j);
      assert init[..j] == s[..j];
    }
  }

  /** Trim is the only infix with trimmable characters on both sides and
      none at its own ends. */
  lemma {:induction false} TrimUnique(s: string, cs: set<char>, i: nat, j: nat)
    requires i <= j <= |s|
    requires forall k :: 0 <= k < i ==> s[k] in cs
    requires forall k :: j <= k < |s| ==> s[k] in cs
    requires i == j || (s[i] !in cs && s[j - 1] !in cs)
    ensures Trim(s, cs) == s[i..j]
    decreases |s|
  {
    if s != [] && s[0] in cs {
      var tail := s[1..];
      if i > 0 {
        assert forall k :: j - 1 <= k < |tail| ==> tail[k] == s[k + 1];
        TrimUnique(tail, cs, i - 1, j - 1);
        assert tail[i - 1..j - 1] == s[i..j];
      } else {
        assert forall k :: 0 <= k < |tail| ==> tail[k] == s[k + 1];
        TrimUnique(tail, cs, 0, 0);
      }
    } else {
      TrimRightUnique(s, cs, j);
    }
  }

  /** Trimmable characters around a string do not change its trim. */
  lemma TrimPadding(lead: string, x: string, trail: string, cs: set<char>)
    requires forall k :: 0 <= k < |lead| ==> lead[k] in cs
    requires forall k :: 0 <= k < |trail| ==> trail[k] in cs
    ensures Trim(lead + x + trail, cs) == Trim(x, cs)
  {
    var t := Trim(x, cs);
    var a := RunLength(x, cs);
    TrimIsInfix(x, cs);
    var s := lead + x + trail;
    var i := |lead| + a;
    var j := i + |t|;
    PaddedPrefix(lead, x, trail, cs, a);
    PaddedSuffix(lead, x, trail, cs, a + |t|);
    SliceOfMiddle(lead, x, trail, a, a + |t|);
    assert s[i..j] == t;
    if i < j {
      assert s[i] == t[0] && s[j - 1] == t[|t| - 1];
    }
    TrimUnique(s, cs, i, j);
  }

  lemma SliceOfMiddle(lead: string, x: string, trail: string, p: nat, q: nat)
    requires p <= q <= |x|
    ensures (lead + x + trail)[|lead| + p..|lead| + q] == x[p..q]
  {
    assert (lead + x + trail)[|lead|..|lead| + |x|] == x;
  }

  lemma PaddedPrefix(lead: string, x: string, trail: string, cs: set<char>, a: nat)
    requires forall k :: 0 <= k < |lead| ==> lead[k] in cs
    requires a <= |x| && forall k :: 0 <= k < a ==> x[k] in cs
    ensures forall k :: 0 <= k < |lead| + a ==> (lead + x + trail)[k] in cs
  {
  }

  lemma PaddedSuffix(lead: string, x: string, trail: string, cs: set<char>, b: nat)
    requires forall k :: 0 <= k < |trail| ==> trail[k] in cs
    requires b <= |x| && forall k :: b <= k < |x| ==> x[k] in cs
    ensures forall k :: |lead| + b <= k < |lead| + |x| + |trail| ==> (lead + x + trail)[k] in cs
  {
  }

  /** Python's `c.lower()` for the characters whose lower case contains an
      ASCII letter: A-Z, the Kelvin sign (to "k") and the capital I with dot
      above (to "i" followed by a combining dot above). Every other character
      is returned unchanged. */
  function LowerChar(c: char): (r: string)
    ensures 'A' <= c <= 'Z' ==> r == [(c as int + 32) as char]
    ensures |r| >= 1
  {
    if 'A' <= c <= 'Z' then [(c as int - 'A' as int + 'a' as int) as char]
    else if c == '\U{212A}' then "k"
    else if c == '\U{130}' then "i\U{307}"
    else [c]
  }

  /** Python's `s.lower()`, character by character (see LowerChar). */
  function Lower(s: string): (r: string)
    decreases |s|
  {
    if s == [] then [] else LowerChar(s[0]) + Lower(s[1..])
  }

  lemma {:induction false} LowerAppend(a: string, b: string)
    ensures Lower(a + b) == Lower(a) + Lower(b)
    decreases |a|
  {
    if a == [] {
      assert a + b == b;
    } else {
      assert (a + b)[1..] == a[1..] + b;
      LowerAppend(a[1..], b);
    }
  }

  /** The characters of `s` that `keep` accepts, in their original order. */
  function Filter(s: string, keep: char -> bool): (r: string)
    ensures |r| <= |s|
    ensures forall i :: 0 <= i < |r| ==> keep(r[i])
    decreases |s|
  {
    if s == [] then [] else (if keep(s[0]) then [s[0]] else []) + Filter(s[1..], keep)
  }

  lemma {:induction false} FilterAppend(a: string, b: string, keep: char -> bool)
    ensures Filter(a + b, keep) == Filter(a, keep) + Filter(b, keep)
    decreases |a|
  {
    if a == [] {
      assert a + b == b;
    } else {
      assert (a + b)[1..] == a[1..] + b;
      FilterAppend(a[1..], b, keep);
    }
  }

  /** Filtering a string whose characters are all kept changes nothing. */
  lemma {:induction false} FilterAllKept(s: string, keep: char -> bool)
    requires forall i :: 0 <= i < |s| ==> keep(s[i])
    ensures Filter(s, keep) == s
    decreases |s|
  {
    if s != [] {
      FilterAllKept(s[1..], keep);
    }
  }

  /** Python's `s.replace(from, to)` for one-character `from` and `to`. */
  function ReplaceChar(s: string, from: char, to: char): (r: string)
    ensures |r| == |s|
    ensures forall i :: 0 <= i < |s| ==> r[i] == (if s[i] == from then to else s[i])
  {
    seq(|s|, i requires 0 <= i < |s| => if s[i] == from then to else s[i])
  }

  /** Python's `sep.join(parts)`. */
  function Join(sep: string, parts: seq<string>): string
    decreases |parts|
  {
    if |parts| == 0 then ""
    else if |parts| == 1 then parts[0]
    else parts[0] + sep + Join(sep, parts[1..])
  }

  /** A line in the sense of `splitlines`: it holds no line break. */
  predicate IsLine(line: string) {
    forall i :: 0 <= i < |line| ==> line[i] !in LINE_BREAKS
  }

  /** Python's `s.splitlines()`: the lines of `s` without their line breaks;
      a final line break does not start a further, empty line. */
  function SplitLines(s: string): (lines: seq<string>)
    ensures forall k :: 0 <= k < |lines| ==> IsLine(lines[k])
    ensures s == [] <==> lines == []
    decreases |s|
  {
    if s == [] then []
    else
      var i := FirstIn(s, LINE_BREAKS);
      if i == |s| then [s]
      else
        var next := if s[i] == '\r' && i + 1 < |s| && s[i + 1] == '\n' then i + 2 else i + 1;
        [s[..i]] + SplitLines(s[next..])
  }

  /** Joining lines with "\n" and splitting the result again gives back the
      lines, as long as none holds a line break and the last is not empty. */
  lemma {:induction false} SplitLinesOfJoin(lines: seq<string>)
    requires forall k :: 0 <= k < |lines| ==> IsLine(lines[k])
    requires lines == [] || lines[|lines| - 1] != ""
    ensures SplitLines(Join("\n", lines)) == lines
    decreases |lines|
  {
    if |lines| == 1 {
      var x := lines[0];
      assert FirstIn(x, LINE_BREAKS) == |x|;
    } else if |lines| > 1 {
      var x := lines[0];
      var rest := lines[1..];
      var j := Join("\n", rest);
      var s := x + "\n" + j;
      assert s == Join("\n", lines);
      JoinNonEmpty(rest);
      assert FirstIn(s, LINE_BREAKS) == |x| by {
        assert forall i :: 0 <= i < |x| ==> s[i] == x[i];
        FirstInAt(s, LINE_BREAKS, |x|);
      }
      assert s[..|x|] == x;
      assert s[|x| + 1..] == j;
      SplitLinesOfJoin(rest);
    }
  }

  lemma {:induction false} JoinNonEmpty(lines: seq<string>)
    requires lines != [] && lines[|lines| - 1] != ""
    ensures Join("\n", lines) != ""
    decreases |lines|
  {
    if |lines| > 1 {
      JoinNonEmpty(lines[1..]);
    }
  }

  /** FirstIn finds position `n` once the characters before it are outside
      `cs` and the one at it is inside. */
  lemma FirstInAt(s: string, cs: set<char>, n: nat)
    requires n < |s| && s[n] in cs
    requires forall i :: 0 <= i < n ==> s[i] !in cs
    ensures FirstIn(s, cs) == n
  {
  }

  /** The last `min(n, |xs|)` elements of `xs`: Python's `xs[-n:]` for n > 0. */
  function LastN<T>(xs: seq<T>, n: nat): (r: seq<T>)
    ensures |r| == if n < |xs| then n else |xs|
    ensures r == xs[|xs| - |r|..]
  {
    if n < |xs| then xs[|xs| - n..] else xs
  }

  function DigitValue(c: char): (d: nat)
    requires c in DIGITS
    ensures d < 10
  {
    c as int - '0' as int
  }

  function DigitChar(d: nat): (c: char)
    requires d < 10
    ensures c in DIGITS && DigitValue(c) == d
  {
    ('0' as int + d) as char
  }

  predicate AllDigits(s: string) { forall i :: 0 <= i < |s| ==> s[i] in DIGITS }

  /** Python's `int(ds)` for a non-empty run of ASCII digits. */
  function ParseNat(ds: string): nat
    requires AllDigits(ds)
    decreases |ds|
  {
    if ds == [] then 0 else 10 * ParseNat(ds[..|ds| - 1]) + DigitValue(ds[|ds| - 1])
  }

  /** The decimal rendering of `n`, as Python's `str(n)` writes it. */
  function ShowNat(n: nat): (s: string)
    ensures s != [] && AllDigits(s)
    decreases n
  {
    if n < 10 then [DigitChar(n)] else ShowNat(n / 10) + [DigitChar(n % 10)]
  }

  /** Reading back a rendered number gives the number. */
  lemma {:induction false} ParseShowNat(n: nat)
    ensures ParseNat(ShowNat(n)) == n
    decreases n
  {
    var s := ShowNat(n);
    if n >= 10 {
      assert s[..|s| - 1] == ShowNat(n / 10);
      ParseShowNat(n / 10);
    }
  }
}
