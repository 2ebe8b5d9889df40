/** The build-log reader of main.py (`/build-log/{slug}`): the status read
    from the tail of the log, the last-N-lines view, and the metrics that
    `_parse_build_stats` extracts with regular expressions. */
module BuildLog {
  import opened Wrappers
  import opened PyStr

  /** The three states a build can be reported in. */
  datatype Status = Complete | Failed | InProgress

  /** The line create.sh prints last on success, "🌐 Open:". */
  const OPEN_MARKER: string := "\U{1F310} Open:"
  /** "❌ Failed", printed by create.sh on a fatal error. */
  const FAILED_MARKER: string := "\U{274C} Failed"
  const EXIT_MARKER: string := "exit 1"
  /** How many characters at the end of the log the status is read from. */
  const TAIL_WINDOW: nat := 2000

  /** Python's `log[-2000:]`. */
  function LogTail(log: string): (t: string)
    ensures |t| == if |log| < TAIL_WINDOW then |log| else TAIL_WINDOW
    ensures t == log[|log| - |t|..]
  {
    if |log| <= TAIL_WINDOW then log else log[|log| - TAIL_WINDOW..]
  }

  /** The status of `get_build_log`: complete once the open marker is in
      the last 2000 characters, failed if instead a failure marker is, and
      in progress otherwise. */
  function BuildStatus(log: string): (s: Status)
    ensures s == Complete <==> Contains(LogTail(log), OPEN_MARKER)
    ensures s == Failed <==>
      !Contains(LogTail(log), OPEN_MARKER)
      && (Contains(LogTail(log), FAILED_MARKER) || Contains(LogTail(log), EXIT_MARKER))
  {
    var tail := LogTail(log);
    if Contains(tail, OPEN_MARKER) then Complete
    else if Contains(tail, FAILED_MARKER) || Contains(tail, EXIT_MARKER) then Failed
    else InProgress
  }

  /** Only the last 2000 characters matter: anything written before them
      leaves the status as it is. */
  lemma BuildStatusReadsOnlyTail(earlier: string, log: string)
    requires |log| >= TAIL_WINDOW
    ensures BuildStatus(earlier + log) == BuildStatus(log)
  {
    var whole := earlier + log;
    assert whole[|whole| - TAIL_WINDOW..] == log[|log| - TAIL_WINDOW..];
    assert LogTail(whole) == LogTail(log);
  }

  /** A substring of a suffix is a substring of the whole. */
  lemma ContainsInSuffix(s: string, suffix: string, sub: string)
    requires |suffix| <= |s| && suffix == s[|s| - |suffix|..]
    requires Contains(suffix, sub)
    ensures Contains(s, sub)
  {
    var i :| 0 <= i <= |suffix| && sub <= suffix[i..];
    var j := |s| - |suffix| + i;
    assert s[j..] == suffix[i..];
  }

  /** A log whose last chunk of at most 2000 characters holds the open
      marker is complete, whatever failures were logged before. */
  lemma OpenMarkerAtEndCompletes(log: string, chunk: string)
    requires |chunk| <= TAIL_WINDOW && Contains(chunk, OPEN_MARKER)
    ensures BuildStatus(log + chunk) == Complete
  {
    var whole := log + chunk;
    var tail := LogTail(whole);
    assert chunk == tail[|tail| - |chunk|..];
    ContainsInSuffix(tail, chunk, OPEN_MARKER);
  }

  /** The `log` field of `get_build_log`: the whole log for `lines <= 0`,
      otherwise its last `lines` lines joined with "\n". */
  function TailLog(log: string, lines: int): (r: string)
    ensures lines <= 0 ==> r == log
  {
    if lines > 0 then Join("\n", LastN(SplitLines(log), lines as nat)) else log
  }

  /** For `lines > 0` the result consists of exactly the last
      `min(lines, #lines)` lines of the log (as long as the final line of
      the log is not empty, which a join cannot represent). */
  lemma TailLogLines(log: string, lines: int)
    requires lines > 0
    requires var all := SplitLines(log); all == [] || all[|all| - 1] != ""
    ensures SplitLines(TailLog(log, lines)) == LastN(SplitLines(log), lines as nat)
  {
    var all := SplitLines(log);
    var last := LastN(all, lines as nat);
    LastLines(all, lines as nat);
    assert TailLog(log, lines) == Join("\n", last);
    SplitLinesOfJoin(last);
  }

  /** The last lines of a split are lines, and the final one is still
      not empty. */
  lemma LastLines(all: seq<string>, n: nat)
    requires forall k :: 0 <= k < |all| ==> IsLine(all[k])
    requires all == [] || all[|all| - 1] != ""
    ensures var last := LastN(all, n);
      && (forall k :: 0 <= k < |last| ==> IsLine(last[k]))
      && (last == [] || last[|last| - 1] != "")
  {
    var last := LastN(all, n);
    assert forall k :: 0 <= k < |last| ==> last[k] == all[|all| - |last| + k];
  }

  /** A log that ends lines only with "\n" and has no final newline is
      returned unchanged once `lines` covers all of its lines. */
  lemma TailLogWholeLog(log: string, lines: int)
    requires forall i :: 0 <= i < |log| && log[i] in LINE_BREAKS ==> log[i] == '\n'
    requires log == [] || log[|log| - 1] != '\n'
    requires lines >= |SplitLines(log)|
    ensures TailLog(log, lines) == log
  {
    if lines > 0 {
      JoinOfSplitLines(log);
    }
  }

  lemma {:induction false} JoinOfSplitLines(s: string)
    requires forall i :: 0 <= i < |s| && s[i] in LINE_BREAKS ==> s[i] == '\n'
    requires s == [] || s[|s| - 1] != '\n'
    ensures Join("\n", SplitLines(s)) == s
    decreases |s|
  {
    if s != [] {
      var i := FirstIn(s, LINE_BREAKS);
      if i < |s| {
        var rest := s[i + 1..];
        assert s[i] == '\n';
        assert rest != [] && rest[|rest| - 1] == s[|s| - 1];
        assert forall k :: 0 <= k < |rest| ==> rest[k] == s[i + 1 + k];
        JoinOfSplitLines(rest);
        assert SplitLines(s) == [s[..i]] + SplitLines(rest);
        JoinCons(s[..i], SplitLines(rest));
        SplitAtNewline(s, i);
      }
    }
  }

  /** Joining a line in front of a non-empty list of lines. */
  lemma JoinCons(line: string, lines: seq<string>)
    requires lines != []
    ensures Join("\n", [line] + lines) == line + "\n" + Join("\n", lines)
  {
    assert ([line] + lines)[1..] == lines;
  }

  /** A text around one of its newlines. */
  lemma SplitAtNewline(s: string, i: nat)
    requires i < |s| && s[i] == '\n'
    ensures s == s[..i] + "\n" + s[i + 1..]
  {
    assert s[i..] == "\n" + s[i + 1..];
    assert s == s[..i] + s[i..];
  }

  // ---------------------------------------------------------------------
  // `_parse_build_stats`. Each pattern is matched at a position by a
  // function of the text from that position on; `re.search` is Search.
  // ---------------------------------------------------------------------

  /** Python's `re.search`: the match at the leftmost position where the
      pattern matches, positions tried from 0 to |s| inclusive. */
  function Search<T>(s: string, matchAt: string -> Option<T>): (r: Option<T>)
    ensures r.Some? ==> exists k :: 0 <= k <= |s| && matchAt(s[k..]) == r
    decreases |s|
  {
    if matchAt(s).Some? then
      assert s[0..] == s;
      matchAt(s)
    else if s == [] then None
    else
      assert forall k :: 0 <= k <= |s| - 1 ==> s[1..][k..] == s[k + 1..];
      Search(s[1..], matchAt)
  }

  /** A search finds the match at the first matching position, and finds
      nothing exactly when no position matches. */
  lemma {:induction false} SearchFindsFirst<T>(s: string, matchAt: string -> Option<T>)
    ensures Search(s, matchAt).None? <==> forall k :: 0 <= k <= |s| ==> matchAt(s[k..]).None?
    ensures Search(s, matchAt).Some? ==>
      exists k :: 0 <= k <= |s| && matchAt(s[k..]) == Search(s, matchAt)
        && forall j :: 0 <= j < k ==> matchAt(s[j..]).None?
    decreases |s|
  {
    if matchAt(s).Some? {
      assert s[0..] == s;
    } else if s == [] {
      assert forall k :: 0 <= k <= |s| ==> s[k..] == s;
    } else {
      SearchFindsFirst(s[1..], matchAt);
      SearchSkipsFirst(s, matchAt);
    }
  }

  /** The step of SearchFindsFirst past a position that does not match. */
  lemma SearchSkipsFirst<T>(s: string, matchAt: string -> Option<T>)
    requires s != [] && matchAt(s).None?
    requires Search(s[1..], matchAt).None? <==> forall k :: 0 <= k <= |s[1..]| ==> matchAt(s[1..][k..]).None?
    requires Search(s[1..], matchAt).Some? ==>
      exists k :: 0 <= k <= |s[1..]| && matchAt(s[1..][k..]) == Search(s[1..], matchAt)
        && forall j :: 0 <= j < k ==> matchAt(s[1..][j..]).None?
    ensures Search(s, matchAt).None? <==> forall k :: 0 <= k <= |s| ==> matchAt(s[k..]).None?
    ensures Search(s, matchAt).Some? ==>
      exists k :: 0 <= k <= |s| && matchAt(s[k..]) == Search(s, matchAt)
        && forall j :: 0 <= j < k ==> matchAt(s[j..]).None?
  {
    var t := s[1..];
    assert forall k :: 1 <= k <= |s| ==> t[k - 1..] == s[k..];
    assert s[0..] == s;
    if Search(t, matchAt).Some? {
      var k :| 0 <= k <= |t| && matchAt(t[k..]) == Search(t, matchAt)
        && forall j :: 0 <= j < k ==> matchAt(t[j..]).None?;
      assert t[k..] == s[k + 1..];
    }
  }

  /** Every character of `w` is whitespace (`\s*` matches all of `w`). */
  predicate Spaces(w: string) { forall i :: 0 <= i < |w| ==> IsSpace(w[i]) }

  /** `ds` is a whole `\d+` run when followed by `rest`. */
  predicate NumberThen(ds: string, rest: string) {
    ds != [] && AllDigits(ds) && (rest == [] || rest[0] !in DIGITS)
  }

  /** `tag` followed by one or more whitespace characters (`tag\s+`):
      the text after them. */
  function AfterLabel(s: string, tag: string): (r: Option<string>)
    ensures r.Some? ==> tag <= s && |r.value| < |s| - |tag|
    ensures r.Some? ==> r.value == [] || !IsSpace(r.value[0])
  {
    if tag <= s then
      var rest := s[|tag|..];
      var w := RunLength(rest, WHITESPACE);
      if w == 0 then None else Some(rest[w..])
    else None
  }

  /** AfterLabel matches exactly when the tag is followed by whitespace,
      and then `s` is the tag, that whitespace and the text returned. */
  lemma AfterLabelShape(s: string, tag: string)
    ensures AfterLabel(s, tag).None? <==> !(tag <= s) || |s| == |tag| || !IsSpace(s[|tag|])
    ensures AfterLabel(s, tag).Some? ==> (var r := AfterLabel(s, tag).value;
      s == tag + s[|tag|..|s| - |r|] + r && Spaces(s[|tag|..|s| - |r|]))
  {
    if tag <= s && AfterLabel(s, tag).Some? {
      var rest := s[|tag|..];
      var w := RunLength(rest, WHITESPACE);
      assert s[|tag|..|s| - |rest[w..]|] == rest[..w];
      assert s == tag + rest[..w] + rest[w..];
    }
  }

  /** `\d+` at the start of `s`: its value and what follows it. */
  function LeadingNumber(s: string): (r: Option<(nat, string)>)
    ensures r.Some? ==> r.value.1 == [] || r.value.1[0] !in DIGITS
  {
    var n := RunLength(s, DIGITS);
    if n == 0 then None else Some((ParseNat(s[..n]), s[n..]))
  }

  /** LeadingNumber matches exactly when `s` starts with a digit, and then
      `s` is the whole run of digits, read as the number, and the rest. */
  lemma LeadingNumberShape(s: string)
    ensures LeadingNumber(s).None? <==> s == [] || s[0] !in DIGITS
    ensures LeadingNumber(s).Some? ==> (var rest := LeadingNumber(s).value.1;
      && |rest| < |s|
      && var ds := s[..|s| - |rest|];
         s == ds + rest && NumberThen(ds, rest) && LeadingNumber(s).value.0 == ParseNat(ds))
  {
    var n := RunLength(s, DIGITS);
    assert s == s[..n] + s[n..];
  }

  /** `Generated:\s+(\d+)\s*\/\s*(\d+)` at the start of `s`. */
  function MatchGenerated(s: string): (r: Option<(nat, nat)>)
    ensures r.Some? ==> exists w, counts :: (s == "Generated:" + w + counts
      && w != [] && Spaces(w) && CountsAt(counts) == r)
  {
    var after := AfterLabel(s, "Generated:");
    if after.None? then None
    else
      AfterLabelShape(s, "Generated:");
      CountsAt(after.value)
  }

  /** `(\d+)\s*\/\s*(\d+)` at the start of `r`: a match means `r` is a
      run of digits, optional whitespace, '/', optional whitespace and a
      whole run of digits, the two runs reading as the two counts. */
  function CountsAt(r: string): (c: Option<(nat, nat)>)
    ensures c.Some? ==> exists d1, w2, w3, d2, rest :: (r == d1 + w2 + "/" + w3 + d2 + rest
      && d1 != [] && AllDigits(d1) && ParseNat(d1) == c.value.0
      && Spaces(w2) && Spaces(w3)
      && NumberThen(d2, rest) && ParseNat(d2) == c.value.1)
  {
    var first := LeadingNumber(r);
    if first.None? then None
    else
      var r2 := first.value.1;
      var r3 := TrimLeft(r2, WHITESPACE);
      if !("/" <= r3) then None
      else
        var r4 := TrimLeft(r3[1..], WHITESPACE);
        var second := LeadingNumber(r4);
        if second.None? then None
        else
          LeadingNumberShape(r);
          TrimLeftShape(r2);
          TrimLeftShape(r3[1..]);
          LeadingNumberShape(r4);
          var rest := second.value.1;
          CountsWitness(r, first.value.0, second.value.0, r[..|r| - |r2|], r2, r2[..|r2| - |r3|], r3,
                        r3[1..][..|r3| - 1 - |r4|], r4, r4[..|r4| - |rest|], rest);
          Some((first.value.0, second.value.0))
  }

  /** TrimLeft drops exactly a run of leading whitespace. */
  lemma TrimLeftShape(s: string)
    ensures var r := TrimLeft(s, WHITESPACE);
      s == s[..|s| - |r|] + r && Spaces(s[..|s| - |r|])
  {
  }

  /** The pieces CountsAt reads, put back together. */
  lemma CountsWitness(r: string, generated: nat, total: nat, d1: string, r2: string, w2: string, r3: string,
                      w3: string, r4: string, d2: string, rest: string)
    requires r == d1 + r2 && d1 != [] && AllDigits(d1) && ParseNat(d1) == generated
    requires r2 == w2 + r3 && Spaces(w2) && "/" <= r3
    requires r3[1..] == w3 + r4 && Spaces(w3)
    requires r4 == d2 + rest && NumberThen(d2, rest) && ParseNat(d2) == total
    ensures exists d1, w2, w3, d2, rest :: (r == d1 + w2 + "/" + w3 + d2 + rest
      && d1 != [] && AllDigits(d1) && ParseNat(d1) == generated
      && Spaces(w2) && Spaces(w3)
      && NumberThen(d2, rest) && ParseNat(d2) == total)
  {
    var a := d1 + w2 + "/" + w3;
    assert r3 == "/" + r3[1..];
    assert r == d1 + w2 + r3;
    assert r == a + r4 by {
      assert d1 + w2 + r3 == d1 + w2 + "/" + r3[1..];
    }
    assert r == a + d2 + rest;
  }

  /** `tag\s+(\d+)` at the start of `s`: a match means `s` is the tag,
      whitespace, a run of digits reading as the count, and text that
      does not go on with a digit. */
  function MatchCount(tag: string, s: string): (r: Option<nat>)
    ensures r.Some? ==> exists w, ds, rest :: (s == tag + w + ds + rest
      && w != [] && Spaces(w) && NumberThen(ds, rest) && ParseNat(ds) == r.value)
  {
    var after := AfterLabel(s, tag);
    if after.None? then None
    else
      var r := after.value;
      var number := LeadingNumber(r);
      if number.None? then None
      else
        var rest := number.value.1;
        AfterLabelShape(s, tag);
        LeadingNumberShape(r);
        Regroup(s, tag, s[|tag|..|s| - |r|], r, r[..|r| - |rest|], rest);
        Some(number.value.0)
  }

  lemma Regroup(s: string, tag: string, w: string, r: string, ds: string, rest: string)
    requires s == tag + w + r && r == ds + rest
    ensures s == tag + w + ds + rest
  {
  }

  /** `Failed:\s+(\d+)` at the start of `s`. */
  function MatchFailed(s: string): (r: Option<nat>)
    ensures r.Some? ==> exists w, ds, rest :: (s == "Failed:" + w + ds + rest
      && w != [] && Spaces(w) && NumberThen(ds, rest) && ParseNat(ds) == r.value)
  {
    MatchCount("Failed:", s)
  }

  /** `s` is `tag`, a non-empty run of whitespace `w`, the matched `value`
      and then `rest`. */
  predicate LabelThen(s: string, tag: string, w: string, value: string, rest: string) {
    s == tag + w + value + rest && w != [] && Spaces(w)
  }

  /** No character of `v` is whitespace (`\S+` matches all of `v`). */
  predicate NoSpaces(v: string) { forall i :: 0 <= i < |v| ==> !IsSpace(v[i]) }

  /** The text after `tag\s+` split into the first `n` characters and the
      rest. */
  lemma LabelledAt(s: string, tag: string, r: string, n: nat)
    requires AfterLabel(s, tag) == Some(r) && n <= |r|
    ensures LabelThen(s, tag, s[|tag|..|s| - |r|], r[..n], r[n..])
  {
    var m := s[|tag|..|s| - |r|];
    AfterLabelShape(s, tag);
    assert s == tag + m + r && Spaces(m) && m != [];
    assert r == r[..n] + r[n..];
    Regroup(s, tag, m, r, r[..n], r[n..]);
  }

  /** A prefix of the text after `tag\s+` is a value labelled by `tag`. */
  lemma LabelledValue(s: string, tag: string, r: string, v: string)
    requires AfterLabel(s, tag) == Some(r) && v <= r
    ensures exists w, rest :: LabelThen(s, tag, w, v, rest)
  {
    LabelledAt(s, tag, r, |v|);
    assert r[..|v|] == v;
  }

  /** A prefix of the text after `tag\s+` that ends at whitespace or at
      the end of the text. */
  lemma LabelledToken(s: string, tag: string, r: string, v: string)
    requires AfterLabel(s, tag) == Some(r) && v <= r
    requires |v| == |r| || IsSpace(r[|v|])
    ensures exists w, rest :: LabelThen(s, tag, w, v, rest) && (rest == [] || IsSpace(rest[0]))
  {
    LabelledAt(s, tag, r, |v|);
    assert r[..|v|] == v;
  }

  /** `tag\s+(\S+)` at the start of `s`: the non-whitespace token, which
      whitespace or the end of the text follows. */
  function MatchToken(tag: string, s: string): (r: Option<string>)
    ensures r.Some? ==> r.value != [] && NoSpaces(r.value)
    ensures r.Some? ==> exists w, rest :: LabelThen(s, tag, w, r.value, rest) && (rest == [] || IsSpace(rest[0]))
  {
    match AfterLabel(s, tag)
    case None => None
    case Some(r) =>
      var n := FirstIn(r, WHITESPACE);
      if n == 0 then None
      else
        LabelledToken(s, tag, r, r[..n]);
        Some(r[..n])
  }

  /** `v` is digits, 'm', whitespace, digits and 's', as in "3m 12s". */
  predicate DurationText(v: string, d1: string, w: string, d2: string) {
    DurationTextIn(v, d1, w, d2, DIGITS, WHITESPACE)
  }

  /** DurationText with the digits and the whitespace characters as the
      sets `ds` and `ws`. */
  predicate DurationTextIn(v: string, d1: string, w: string, d2: string, ds: set<char>, ws: set<char>) {
    && v == d1 + "m" + w + d2 + "s"
    && d1 != [] && (forall i :: 0 <= i < |d1| ==> d1[i] in ds)
    && w != [] && (forall i :: 0 <= i < |w| ==> w[i] in ws)
    && d2 != [] && (forall i :: 0 <= i < |d2| ==> d2[i] in ds)
  }

  /** `tag\s+([\d]+m\s+[\d]+s)` at the start of `s`. */
  function MatchDuration(tag: string, s: string): (r: Option<string>)
    ensures r.Some? ==> exists w, rest :: LabelThen(s, tag, w, r.value, rest)
    ensures r.Some? ==> exists d1, w, d2 :: DurationText(r.value, d1, w, d2)
  {
    var after := AfterLabel(s, tag);
    if after.None? then None
    else
      var r := after.value;
      var n := DurationEnd(r);
      if n == 0 then None
      else
        var v := r[..n];
        LabelledValue(s, tag, r, v);
        DurationEndShape(r);
        Some(v)
  }

  /** `[\d]+m\s+[\d]+s` at the start of `r`: the length of the match, or
      0 when there is none. */
  function DurationEnd(r: string): (n: nat)
    ensures n <= |r|
  {
    DurationEndIn(r, DIGITS, WHITESPACE)
  }

  /** DurationEnd with the digits and the whitespace characters as the
      sets `ds` and `ws`. */
  function DurationEndIn(r: string, ds: set<char>, ws: set<char>): (n: nat)
    ensures n <= |r|
  {
    var d1 := RunLength(r, ds);
    if d1 == 0 || !("m" <= r[d1..]) then 0
    else
      var afterM := r[d1 + 1..];
      var w := RunLength(afterM, ws);
      var r2 := afterM[w..];
      var d2 := RunLength(r2, ds);
      if w == 0 || d2 == 0 || !("s" <= r2[d2..]) then 0
      else d1 + 1 + w + d2 + 1
  }

  /** A duration match is a duration text. */
  lemma DurationEndShape(r: string)
    requires DurationEnd(r) > 0
    ensures exists d1, w, d2 :: DurationText(r[..DurationEnd(r)], d1, w, d2)
  {
    var d1, w, d2 := DurationEndInShape(r, DIGITS, WHITESPACE);
    assert DurationText(r[..DurationEnd(r)], d1, w, d2);
  }

  /** The pieces DurationEndIn reads make up the text it matches. */
  lemma DurationEndInShape(r: string, ds: set<char>, ws: set<char>) returns (x: string, y: string, z: string)
    requires DurationEndIn(r, ds, ws) > 0
    ensures DurationTextIn(r[..DurationEndIn(r, ds, ws)], x, y, z, ds, ws)
  {
    var d1 := RunLength(r, ds);
    var afterM := r[d1 + 1..];
    var w := RunLength(afterM, ws);
    var r2 := afterM[w..];
    var d2 := RunLength(r2, ds);
    var v := r[..DurationEndIn(r, ds, ws)];
    x, y, z := r[..d1], afterM[..w], r2[..d2];
    assert r[d1] == 'm' && r2[d2] == 's';
    assert v == x + "m" + y + z + "s";
  }

  /** `Total time:\s+([\d]+m\s+[\d]+s)` at the start of `s`: the duration
      text, such as "3m 12s". */
  function MatchTotalTime(s: string): (r: Option<string>)
    ensures r.Some? ==> exists w, rest :: LabelThen(s, "Total time:", w, r.value, rest)
    ensures r.Some? ==> exists d1, w, d2 :: DurationText(r.value, d1, w, d2)
  {
    MatchDuration("Total time:", s)
  }

  /** An http or https address: the scheme and at least one more
      character. */
  predicate IsWebUrl(v: string) {
    (StartsWith(v, "http://") && |v| > 7) || (StartsWith(v, "https://") && |v| > 8)
  }

  /** `tag\s+(https?://\S+)` at the start of `s`. */
  function MatchUrl(tag: string, s: string): (r: Option<string>)
    ensures r.Some? ==> IsWebUrl(r.value) && NoSpaces(r.value)
    ensures r.Some? ==> exists w, rest :: LabelThen(s, tag, w, r.value, rest) && (rest == [] || IsSpace(rest[0]))
  {
    var after := AfterLabel(s, tag);
    if after.None? then None
    else
      var r := after.value;
      var n := UrlEnd(r);
      if n == 0 then None
      else
        UrlEndShape(r);
        LabelledToken(s, tag, r, r[..n]);
        Some(r[..n])
  }

  /** `https?://\S+` at the start of `r`: the length of the match, or 0
      when there is none. */
  function UrlEnd(r: string): (n: nat)
    ensures n <= |r|
  {
    UrlEndIn(r, WHITESPACE)
  }

  /** UrlEnd with the whitespace characters as the set `ws`. */
  function UrlEndIn(r: string, ws: set<char>): (n: nat)
    ensures n <= |r|
  {
    var scheme := if "https://" <= r then "https://" else "http://";
    if !(scheme <= r) then 0
    else
      var n := FirstIn(r[|scheme|..], ws);
      if n == 0 then 0 else |scheme| + n
  }

  /** A URL match is an http or https address without whitespace, which
      whitespace or the end of the text follows. */
  lemma UrlEndShape(r: string)
    requires UrlEnd(r) > 0
    ensures IsWebUrl(r[..UrlEnd(r)]) && NoSpaces(r[..UrlEnd(r)])
    ensures UrlEnd(r) == |r| || IsSpace(r[UrlEnd(r)])
  {
    var scheme := if "https://" <= r then "https://" else "http://";
    var n := FirstIn(r[|scheme|..], WHITESPACE);
    SchemesHaveNoSpaces();
    TokenAfterScheme(r, scheme, r[..|scheme| + n], n);
  }

  /** Neither scheme holds whitespace. */
  lemma SchemesHaveNoSpaces()
    ensures NoSpaces("https://") && NoSpaces("http://")
  {
    NoSpacesOfAscii("https://");
    NoSpacesOfAscii("http://");
  }

  /** Printable ASCII characters other than the space are not whitespace. */
  lemma NoSpacesOfAscii(v: string)
    requires forall i :: 0 <= i < |v| ==> ' ' < v[i] < '\U{7F}'
    ensures NoSpaces(v)
  {
  }

  /** The scheme followed by the run of non-whitespace characters after
      it, which whitespace or the end of the text follows. */
  lemma TokenAfterScheme(r: string, scheme: string, v: string, n: nat)
    requires NoSpaces(scheme) && scheme <= r
    requires n == FirstIn(r[|scheme|..], WHITESPACE) && n > 0 && v == r[..|scheme| + n]
    ensures StartsWith(v, scheme) && |v| > |scheme| && NoSpaces(v)
    ensures |v| == |r| || IsSpace(r[|v|])
  {
    assert v[..|scheme|] == scheme;
    assert forall i :: |scheme| <= i < |v| ==> v[i] == r[|scheme|..][i - |scheme|];
    assert |v| < |r| ==> r[|v|] == r[|scheme|..][n];
  }

  /** `Open:\s+(https?://\S+)` at the start of `s`: the public site URL,
      an http or https address without whitespace, which whitespace or the
      end of the text follows. */
  function MatchOpenUrl(s: string): (r: Option<string>)
    ensures r.Some? ==> IsWebUrl(r.value) && NoSpaces(r.value)
    ensures r.Some? ==> exists w, rest :: LabelThen(s, "Open:", w, r.value, rest) && (rest == [] || IsSpace(rest[0]))
  {
    MatchUrl("Open:", s)
  }

  /** `Assets size:\s+(\S+)` at the start of `s`. */
  function MatchAssetsSize(s: string): (r: Option<string>)
    ensures r.Some? ==> r.value != [] && NoSpaces(r.value)
    ensures r.Some? ==> exists w, rest :: LabelThen(s, "Assets size:", w, r.value, rest) && (rest == [] || IsSpace(rest[0]))
  {
    MatchToken("Assets size:", s)
  }

  /** `Total size:\s+(\S+)` at the start of `s`. */
  function MatchTotalSize(s: string): (r: Option<string>)
    ensures r.Some? ==> r.value != [] && NoSpaces(r.value)
    ensures r.Some? ==> exists w, rest :: LabelThen(s, "Total size:", w, r.value, rest) && (rest == [] || IsSpace(rest[0]))
  {
    MatchToken("Total size:", s)
  }

  /** A value of the stats dictionary. */
  datatype Stat = Count(n: nat) | Text(t: string)

  /** The keys `_parse_build_stats` can produce in this model. */
  datatype StatKey = TotalTime | ImagesGenerated | ImagesTotal | ImagesFailed | AssetsSize | TotalSize | SiteUrl

  /** The key as it appears in the JSON response. */
  function KeyName(k: StatKey): string {
    match k
    case TotalTime => "total_time"
    case ImagesGenerated => "images_generated"
    case ImagesTotal => "images_total"
    case ImagesFailed => "images_failed"
    case AssetsSize => "assets_size"
    case TotalSize => "total_size"
    case SiteUrl => "site_url"
  }

  /** The entry under `key`, as Python's `stats.get(key)`. */
  function Get(stats: map<StatKey, Stat>, key: StatKey): Option<Stat> {
    if key in stats then Some(stats[key]) else None
  }

  function TextOf(found: Option<string>): Option<Stat> {
    if found.Some? then Some(Text(found.value)) else None
  }

  function CountOf(found: Option<nat>): Option<Stat> {
    if found.Some? then Some(Count(found.value)) else None
  }

  function GeneratedOf(found: Option<(nat, nat)>): Option<Stat> {
    if found.Some? then Some(Count(found.value.0)) else None
  }

  function TotalOf(found: Option<(nat, nat)>): Option<Stat> {
    if found.Some? then Some(Count(found.value.1)) else None
  }

  /** The dictionary `_parse_build_stats` assembles from the results of
      its searches, one `if m: stats[...] = ...` after the other. */
  method RecordStats(
    totalTime: Option<string>, counts: Option<(nat, nat)>, failed: Option<nat>,
    assetsSize: Option<string>, totalSize: Option<string>, siteUrl: Option<string>)
    returns (stats: map<StatKey, Stat>)
    ensures Get(stats, TotalTime) == TextOf(totalTime)
    ensures Get(stats, ImagesGenerated) == GeneratedOf(counts)
    ensures Get(stats, ImagesTotal) == TotalOf(counts)
    ensures Get(stats, ImagesFailed) == CountOf(failed)
    ensures Get(stats, AssetsSize) == TextOf(assetsSize)
    ensures Get(stats, TotalSize) == TextOf(totalSize)
    ensures Get(stats, SiteUrl) == TextOf(siteUrl)
  {
    stats := map[];
    if totalTime.Some? {
      stats := stats[TotalTime := Text(totalTime.value)];
    }
    if counts.Some? {
      stats := stats[ImagesGenerated := Count(counts.value.0)];
      stats := stats[ImagesTotal := Count(counts.value.1)];
    }
    if failed.Some? {
      stats := stats[ImagesFailed := Count(failed.value)];
    }
    if assetsSize.Some? {
      stats := stats[AssetsSize := Text(assetsSize.value)];
    }
    if totalSize.Some? {
      stats := stats[TotalSize := Text(totalSize.value)];
    }
    if siteUrl.Some? {
      stats := stats[SiteUrl := Text(siteUrl.value)];
    }
  }

  /** `_parse_build_stats`: a key is present exactly when its pattern
      matches somewhere in the log, and then holds the value of the first
      match (the mode line and the cost estimate are not modelled). */
  method ParseBuildStats(log: string) returns (stats: map<StatKey, Stat>)
    ensures Get(stats, TotalTime) == TextOf(Search(log, MatchTotalTime))
    ensures Get(stats, ImagesGenerated) == GeneratedOf(Search(log, MatchGenerated))
    ensures Get(stats, ImagesTotal) == TotalOf(Search(log, MatchGenerated))
    ensures Get(stats, ImagesFailed) == CountOf(Search(log, MatchFailed))
    ensures Get(stats, AssetsSize) == TextOf(Search(log, MatchAssetsSize))
    ensures Get(stats, TotalSize) == TextOf(Search(log, MatchTotalSize))
    ensures Get(stats, SiteUrl) == TextOf(Search(log, MatchOpenUrl))
  {
    var totalTime := Search(log, MatchTotalTime);
    var counts := Search(log, MatchGenerated);
    var failed := Search(log, MatchFailed);
    var assetsSize := Search(log, MatchAssetsSize);
    var totalSize := Search(log, MatchTotalSize);
    var siteUrl := Search(log, MatchOpenUrl);
    stats := RecordStats(totalTime, counts, failed, assetsSize, totalSize, siteUrl);
  }

  /** A run of characters from `cs` stops where `cs` does. */
  lemma {:induction false} RunLengthOfConcat(x: string, y: string, cs: set<char>)
    requires forall i :: 0 <= i < |x| ==> x[i] in cs
    requires y == [] || y[0] !in cs
    ensures RunLength(x + y, cs) == |x|
    decreases |x|
  {
    if x == [] {
      assert x + y == y;
    } else {
      assert (x + y)[0] == x[0];
      assert (x + y)[1..] == x[1..] + y;
      RunLengthOfConcat(x[1..], y, cs);
    }
  }

  /** A whole run of digits followed by a non-digit reads back as its
      value. */
  lemma LeadingNumberOfDigits(ds: string, rest: string)
    requires NumberThen(ds, rest)
    ensures LeadingNumber(ds + rest) == Some((ParseNat(ds), rest))
  {
    var s := ds + rest;
    RunLengthOfConcat(ds, rest, DIGITS);
    assert s[..|ds|] == ds;
    assert s[|ds|..] == rest;
  }

  /** The text after a tag and a non-empty run of whitespace. */
  lemma AfterLabelOfSpaces(tag: string, w: string, rest: string)
    requires w != [] && Spaces(w)
    requires rest == [] || !IsSpace(rest[0])
    ensures AfterLabel(tag + w + rest, tag) == Some(rest)
  {
    var s := tag + w + rest;
    assert s[|tag|..] == w + rest;
    RunLengthOfConcat(w, rest, WHITESPACE);
  }

  lemma TrimLeftOfSpaces(w: string, rest: string)
    requires Spaces(w)
    requires rest == [] || !IsSpace(rest[0])
    ensures TrimLeft(w + rest, WHITESPACE) == rest
  {
    RunLengthOfConcat(w, rest, WHITESPACE);
  }

  lemma DigitIsNotSpace(c: char)
    requires c in DIGITS
    ensures !IsSpace(c)
  {
  }

  lemma SpaceIsNotDigit(c: char)
    requires IsSpace(c)
    ensures c !in DIGITS
  {
  }

  /** What follows the first number of a counts line: `\s*\/\s*(\d+)`. */
  lemma SlashThenNumber(w3: string, d2: string, rest: string)
    requires Spaces(w3) && NumberThen(d2, rest)
    ensures var r3 := "/" + w3 + d2 + rest;
      "/" <= r3 && LeadingNumber(TrimLeft(r3[1..], WHITESPACE)) == Some((ParseNat(d2), rest))
  {
    var r3 := "/" + w3 + d2 + rest;
    assert r3[1..] == w3 + (d2 + rest);
    DigitIsNotSpace(d2[0]);
    TrimLeftOfSpaces(w3, d2 + rest);
    LeadingNumberOfDigits(d2, rest);
  }

  /** The first number of a counts line and what follows it. */
  lemma FirstCountThenSlash(d1: string, w2: string, slashOn: string)
    requires d1 != [] && AllDigits(d1) && Spaces(w2)
    requires slashOn != [] && slashOn[0] == '/'
    ensures LeadingNumber(d1 + (w2 + slashOn)) == Some((ParseNat(d1), w2 + slashOn))
    ensures TrimLeft(w2 + slashOn, WHITESPACE) == slashOn
  {
    var tail := w2 + slashOn;
    if w2 != [] {
      assert tail[0] == w2[0];
      SpaceIsNotDigit(w2[0]);
    } else {
      assert tail[0] == '/';
    }
    LeadingNumberOfDigits(d1, tail);
    TrimLeftOfSpaces(w2, slashOn);
  }

  /** The numbers of a counts line, "4 / 6", read back whatever
      whitespace surrounds the slash and however many digits they have. */
  lemma CountsAtReadsCounts(d1: string, w2: string, w3: string, d2: string, rest: string)
    requires d1 != [] && AllDigits(d1)
    requires Spaces(w2) && Spaces(w3)
    requires NumberThen(d2, rest)
    ensures CountsAt(d1 + (w2 + ("/" + w3 + d2 + rest))) == Some((ParseNat(d1), ParseNat(d2)))
  {
    var slashOn := "/" + w3 + d2 + rest;
    FirstCountThenSlash(d1, w2, slashOn);
    SlashThenNumber(w3, d2, rest);
  }

  /** A counts line as create.sh writes it, "Generated: 4 / 6", reads back
      as its two numbers. */
  lemma MatchGeneratedReadsCounts(w1: string, d1: string, w2: string, w3: string, d2: string, rest: string)
    requires w1 != [] && Spaces(w1)
    requires d1 != [] && AllDigits(d1)
    requires Spaces(w2) && Spaces(w3)
    requires NumberThen(d2, rest)
    ensures MatchGenerated("Generated:" + w1 + (d1 + (w2 + ("/" + w3 + d2 + rest))))
      == Some((ParseNat(d1), ParseNat(d2)))
  {
    var counts := d1 + (w2 + ("/" + w3 + d2 + rest));
    DigitIsNotSpace(d1[0]);
    assert counts[0] == d1[0];
    AfterLabelOfSpaces("Generated:", w1, counts);
    CountsAtReadsCounts(d1, w2, w3, d2, rest);
  }

  /** `tag`, whitespace and a whole run of digits read back as its value. */
  lemma MatchCountReads(tag: string, w: string, ds: string, rest: string)
    requires w != [] && Spaces(w) && NumberThen(ds, rest)
    ensures MatchCount(tag, tag + w + ds + rest) == Some(ParseNat(ds))
  {
    DigitIsNotSpace(ds[0]);
    assert tag + w + ds + rest == tag + w + (ds + rest);
    AfterLabelOfSpaces(tag, w, ds + rest);
    LeadingNumberOfDigits(ds, rest);
  }

  /** "Failed: 2", or "Failed: 007", reads back as the value of its
      digits. */
  lemma MatchFailedReadsCount(w: string, ds: string, rest: string)
    requires w != [] && Spaces(w) && NumberThen(ds, rest)
    ensures MatchFailed("Failed:" + w + ds + rest) == Some(ParseNat(ds))
  {
    MatchCountReads("Failed:", w, ds, rest);
  }

  /** FirstIn stops at the first character of `cs`. */
  lemma {:induction false} FirstInOfConcat(x: string, y: string, cs: set<char>)
    requires forall i :: 0 <= i < |x| ==> x[i] !in cs
    requires y == [] || y[0] in cs
    ensures FirstIn(x + y, cs) == |x|
    decreases |x|
  {
    if x == [] {
      assert x + y == y;
    } else {
      assert (x + y)[0] == x[0];
      assert (x + y)[1..] == x[1..] + y;
      FirstInOfConcat(x[1..], y, cs);
    }
  }

  /** `tag`, whitespace and a run without whitespace that whitespace or
      the end of the text follows: `\S+` matches that run. */
  lemma MatchTokenReads(tag: string, w: string, v: string, rest: string)
    requires w != [] && Spaces(w) && v != [] && NoSpaces(v)
    requires rest == [] || IsSpace(rest[0])
    ensures MatchToken(tag, tag + w + v + rest) == Some(v)
  {
    var r := v + rest;
    assert r[0] == v[0];
    assert tag + w + v + rest == tag + w + r;
    AfterLabelOfSpaces(tag, w, r);
    FirstInOfConcat(v, rest, WHITESPACE);
    assert r[..|v|] == v;
  }

  /** "Assets size: 12M" reads back as "12M". */
  lemma MatchAssetsSizeReads(w: string, v: string, rest: string)
    requires w != [] && Spaces(w) && v != [] && NoSpaces(v)
    requires rest == [] || IsSpace(rest[0])
    ensures MatchAssetsSize("Assets size:" + w + v + rest) == Some(v)
  {
    MatchTokenReads("Assets size:", w, v, rest);
  }

  /** "Total size: 40M" reads back as "40M". */
  lemma MatchTotalSizeReads(w: string, v: string, rest: string)
    requires w != [] && Spaces(w) && v != [] && NoSpaces(v)
    requires rest == [] || IsSpace(rest[0])
    ensures MatchTotalSize("Total size:" + w + v + rest) == Some(v)
  {
    MatchTokenReads("Total size:", w, v, rest);
  }

  /** A run of characters from `cs` and what follows it. */
  lemma RunThen(x: string, y: string, cs: set<char>)
    requires forall i :: 0 <= i < |x| ==> x[i] in cs
    requires y != [] && y[0] !in cs
    ensures RunLength(x + y, cs) == |x| && (x + y)[|x|..] == y && (x + y)[|x|..][1..] == y[1..]
  {
    RunLengthOfConcat(x, y, cs);
  }

  /** DurationEndIn matches a whole duration text, whatever follows it. */
  lemma DurationEndInOf(v: string, d1: string, w: string, d2: string, rest: string, ds: set<char>, ws: set<char>)
    requires DurationTextIn(v, d1, w, d2, ds, ws)
    requires 'm' !in ds && 's' !in ds && d2[0] !in ws
    ensures DurationEndIn(v + rest, ds, ws) == |v| && (v + rest)[..|v|] == v
  {
    DurationRegroup(v, d1, w, d2, rest);
    DurationReadsAt(d1, w, d2, rest, ds, ws);
  }

  /** A duration text and what follows it, grouped as DurationEndIn reads
      them. */
  lemma DurationRegroup(v: string, d1: string, w: string, d2: string, rest: string)
    requires v == d1 + "m" + w + d2 + "s"
    ensures v + rest == d1 + ("m" + (w + (d2 + ("s" + rest))))
    ensures |v| == |d1| + 1 + |w| + |d2| + 1 && (v + rest)[..|v|] == v
  {
  }

  /** Where DurationEndIn finds the digits, the 'm', the whitespace and
      the 's' of a duration text. */
  lemma DurationReadsAt(d1: string, w: string, d2: string, rest: string, ds: set<char>, ws: set<char>)
    requires d1 != [] && (forall i :: 0 <= i < |d1| ==> d1[i] in ds)
    requires w != [] && (forall i :: 0 <= i < |w| ==> w[i] in ws)
    requires d2 != [] && (forall i :: 0 <= i < |d2| ==> d2[i] in ds)
    requires 'm' !in ds && 's' !in ds && d2[0] !in ws
    ensures var r := d1 + ("m" + (w + (d2 + ("s" + rest))));
      && RunLength(r, ds) == |d1| && "m" <= r[|d1|..]
      && RunLength(r[|d1| + 1..], ws) == |w|
      && RunLength(r[|d1| + 1..][|w|..], ds) == |d2|
      && "s" <= r[|d1| + 1..][|w|..][|d2|..]
  {
    var b := "s" + rest;
    var r2 := d2 + b;
    var afterM := w + r2;
    var a := "m" + afterM;
    var r := d1 + a;
    RunThen(d1, a, ds);
    assert r[|d1| + 1..] == afterM;
    RunThen(w, r2, ws);
    RunThen(d2, b, ds);
  }

  /** `tag`, whitespace and a duration such as "3m 12s" read back as that
      duration, whatever follows it. */
  lemma MatchDurationReads(tag: string, w: string, v: string, d1: string, w2: string, d2: string, rest: string)
    requires w != [] && Spaces(w) && DurationText(v, d1, w2, d2)
    ensures MatchDuration(tag, tag + w + v + rest) == Some(v)
  {
    var r := v + rest;
    DigitIsNotSpace(d1[0]);
    DigitIsNotSpace(d2[0]);
    assert r[0] == d1[0];
    assert tag + w + v + rest == tag + w + r;
    AfterLabelOfSpaces(tag, w, r);
    DurationEndInOf(v, d1, w2, d2, rest, DIGITS, WHITESPACE);
  }

  /** "Total time: 3m 12s" reads back as "3m 12s". */
  lemma MatchTotalTimeReads(w: string, v: string, d1: string, w2: string, d2: string, rest: string)
    requires w != [] && Spaces(w) && DurationText(v, d1, w2, d2)
    ensures MatchTotalTime("Total time:" + w + v + rest) == Some(v)
  {
    MatchDurationReads("Total time:", w, v, d1, w2, d2, rest);
  }

  /** `tag`, whitespace and an http or https address without whitespace,
      which whitespace or the end of the text follows, read back as that
      address. */
  lemma MatchUrlReads(tag: string, w: string, v: string, rest: string)
    requires w != [] && Spaces(w) && IsWebUrl(v) && NoSpaces(v)
    requires rest == [] || IsSpace(rest[0])
    ensures MatchUrl(tag, tag + w + v + rest) == Some(v)
  {
    var r := v + rest;
    assert r[0] == v[0];
    assert tag + w + v + rest == tag + w + r;
    AfterLabelOfSpaces(tag, w, r);
    var scheme := SchemeOf(v, rest);
    TokenEndIn(v, rest, |scheme|, WHITESPACE);
    MatchUrlFrom(tag, tag + w + v + rest, r, scheme, |v| - |scheme|);
  }

  /** The scheme MatchUrl tries on an address followed by `rest`. */
  lemma SchemeOf(v: string, rest: string) returns (scheme: string)
    requires IsWebUrl(v)
    ensures scheme == if "https://" <= v + rest then "https://" else "http://"
    ensures scheme <= v && |scheme| < |v|
  {
    var r := v + rest;
    scheme := if "https://" <= r then "https://" else "http://";
    if "https://" <= r {
      assert r[..8] == v[..8];
      assert !StartsWith(v, "http://") by {
        assert v[4] == 's';
      }
    }
  }

  /** From position `k` on, the address holds no character of `ws`, and a
      character of `ws` or the end of the text follows it. */
  lemma TokenEndIn(v: string, rest: string, k: nat, ws: set<char>)
    requires k < |v|
    requires forall i :: k <= i < |v| ==> v[i] !in ws
    requires rest == [] || rest[0] in ws
    ensures FirstIn((v + rest)[k..], ws) == |v| - k && (v + rest)[..|v|] == v
  {
    var r := v + rest;
    assert r[k..] == v[k..] + rest;
    FirstInOfConcat(v[k..], rest, ws);
  }

  /** MatchUrl's result from the scheme and the length of the run after it. */
  lemma MatchUrlFrom(tag: string, s: string, r: string, scheme: string, n: nat)
    requires AfterLabel(s, tag) == Some(r)
    requires scheme == if "https://" <= r then "https://" else "http://"
    requires scheme <= r && n > 0 && FirstIn(r[|scheme|..], WHITESPACE) == n
    ensures MatchUrl(tag, s) == Some(r[..|scheme| + n])
  {
    UrlEndInAt(r, scheme, n, WHITESPACE);
    assert UrlEnd(r) == |scheme| + n;
  }

  lemma UrlEndInAt(r: string, scheme: string, n: nat, ws: set<char>)
    requires scheme == if "https://" <= r then "https://" else "http://"
    requires scheme <= r && n > 0 && FirstIn(r[|scheme|..], ws) == n
    ensures UrlEndIn(r, ws) == |scheme| + n
  {
  }

  /** "Open: https://…" reads back as the address. */
  lemma MatchOpenUrlReads(w: string, v: string, rest: string)
    requires w != [] && Spaces(w) && IsWebUrl(v) && NoSpaces(v)
    requires rest == [] || IsSpace(rest[0])
    ensures MatchOpenUrl("Open:" + w + v + rest) == Some(v)
  {
    MatchUrlReads("Open:", w, v, rest);
  }

  /** The JSON body of `get_build_log`. */
  datatype BuildLogReport = BuildLogReport(slug: string, status: Status, stats: map<StatKey, Stat>, log: string)

  /** The HTTP status when the site has no build.log yet. */
  const NOT_FOUND: int := 404

  /** `get_build_log`, with the contents of sites/<slug>/build.log passed in
      (None when the file does not exist). */
  method GetBuildLog(slug: string, logFile: Option<string>, lines: int) returns (r: Result<BuildLogReport>)
    ensures logFile.None? <==> r.Err?
    ensures r.Err? ==> r.code == NOT_FOUND
    ensures r.Ok? ==>
      && r.value.slug == slug
      && r.value.status == BuildStatus(logFile.value)
      && r.value.log == TailLog(logFile.value, lines)
      && Get(r.value.stats, TotalTime) == TextOf(Search(logFile.value, MatchTotalTime))
      && Get(r.value.stats, ImagesGenerated) == GeneratedOf(Search(logFile.value, MatchGenerated))
      && Get(r.value.stats, ImagesTotal) == TotalOf(Search(logFile.value, MatchGenerated))
      && Get(r.value.stats, ImagesFailed) == CountOf(Search(logFile.value, MatchFailed))
      && Get(r.value.stats, AssetsSize) == TextOf(Search(logFile.value, MatchAssetsSize))
      && Get(r.value.stats, TotalSize) == TextOf(Search(logFile.value, MatchTotalSize))
      && Get(r.value.stats, SiteUrl) == TextOf(Search(logFile.value, MatchOpenUrl))
  {
    if logFile.None? {
      return Err(NOT_FOUND);
    }
    var fullLog := logFile.value;
    var raw := TailLog(fullLog, lines);
    var status := BuildStatus(fullLog);
    var stats := ParseBuildStats(fullLog);
    r := Ok(BuildLogReport(slug, status, stats, raw));
  }
}
