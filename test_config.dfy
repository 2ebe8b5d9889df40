/** How tests/test-all.py resolves its configuration from command-line
    arguments and environment variables, the client side of the scrape
    request, its build-status label, and its pass/fail/skip counters. An
    absent command-line argument is None; the environment is a map. */
module TestConfig {
  import opened Wrappers
  import opened PyStr
  import Site
  import BuildLog

  /** `os.environ.get(key, default)`. */
  function EnvGet(env: map<string, string>, key: string, default: string): (v: string)
    ensures key in env ==> v == env[key]
    ensures key !in env ==> v == default
  {
    if key in env then env[key] else default
  }

  /** Python truthiness of an optional string argument: given and non-empty. */
  predicate Given(arg: Option<string>) {
    arg.Some? && arg.value != ""
  }

  // ---------------------------------------------------------------------
  // `_resolve_bool`
  // ---------------------------------------------------------------------

  const TRUE_WORDS: set<string> := {"true", "1", "yes"}
  const FALSE_WORDS: set<string> := {"false", "0", "no"}

  /** `_resolve_bool`: an explicit argument wins; otherwise the variable,
      lower-cased, decides when it is one of the known words, and the
      default applies to anything else. */
  function ResolveBool(arg: Option<bool>, env: map<string, string>, key: string, default: bool): (b: bool)
    ensures arg.Some? ==> b == arg.value
    ensures arg.None? ==>
      var word := Lower(EnvGet(env, key, ""));
      && (word in TRUE_WORDS ==> b)
      && (word in FALSE_WORDS ==> !b)
      && (word !in TRUE_WORDS && word !in FALSE_WORDS ==> b == default)
  {
    if arg.Some? then arg.value
    else
      var word := Lower(EnvGet(env, key, ""));
      if word in TRUE_WORDS then true
      else if word in FALSE_WORDS then false
      else default
  }

  /** An unset variable gives the default. */
  lemma ResolveBoolUnset(env: map<string, string>, key: string, default: bool)
    requires key !in env
    ensures ResolveBool(None, env, key, default) == default
  {
    assert Lower("") == "";
  }

  /** `v` is the lower-case word `w` with any of its letters written as
      the ASCII capital. */
  predicate SpelledAs(v: string, w: string) {
    |v| == |w| && forall i :: 0 <= i < |v| ==>
      v[i] == w[i] || ('a' <= w[i] <= 'z' && v[i] as int == w[i] as int - 32)
  }

  /** A string made of lower-case ASCII letters and digits. */
  predicate LowerAsciiWord(w: string) {
    forall i :: 0 <= i < |w| ==> 'a' <= w[i] <= 'z' || '0' <= w[i] <= '9'
  }

  /** Lower-casing any capitalisation of a lower-case word gives the word. */
  lemma {:induction false} LowerOfSpelling(v: string, w: string)
    requires LowerAsciiWord(w) && SpelledAs(v, w)
    ensures Lower(v) == w
    decreases |v|
  {
    if v != [] {
      assert LowerChar(v[0]) == [w[0]];
      LowerOfSpelling(v[1..], w[1..]);
      assert w == [w[0]] + w[1..];
    }
  }

  /** The words are compared without regard to case: every capitalisation
      of a known word reads as that word. */
  lemma ResolveBoolIgnoresCase(env: map<string, string>, key: string, default: bool, w: string)
    requires w in TRUE_WORDS || w in FALSE_WORDS
    requires key in env && SpelledAs(env[key], w)
    ensures ResolveBool(None, env, key, default) == (w in TRUE_WORDS)
  {
    assert LowerAsciiWord(w) by {
      if w == "true" { assert w == ['t', 'r', 'u', 'e']; }
      else if w == "yes" { assert w == ['y', 'e', 's']; }
      else if w == "false" { assert w == ['f', 'a', 'l', 's', 'e']; }
      else if w == "no" { assert w == ['n', 'o']; }
    }
    LowerOfSpelling(env[key], w);
  }

  // ---------------------------------------------------------------------
  // `_resolve_base_url` and `_resolve_remote_site_url`
  // ---------------------------------------------------------------------

  const SLASH: set<char> := {'/'}
  const DEFAULT_PORT: string := "8000"

  /** `_resolve_base_url`: `--base-url`, then the BASE_URL variable (both
      without trailing '/'), then `http://<host>:<port>` with the port
      from `--port`, PORT or 8000, and finally `http://localhost:<PORT>`. */
  function ResolveBaseUrl(baseUrl: Option<string>, host: Option<string>, port: Option<string>, env: map<string, string>): (url: string)
    ensures Given(baseUrl) ==> url == TrimRight(baseUrl.value, SLASH)
    ensures !Given(baseUrl) && EnvGet(env, "BASE_URL", "") != "" ==> url == TrimRight(env["BASE_URL"], SLASH)
    ensures !Given(baseUrl) && EnvGet(env, "BASE_URL", "") == "" ==>
      var p := if Given(port) && Given(host) then port.value else EnvGet(env, "PORT", DEFAULT_PORT);
      url == "http://" + (if Given(host) then host.value else "localhost") + ":" + p
  {
    if Given(baseUrl) then TrimRight(baseUrl.value, SLASH)
    else if EnvGet(env, "BASE_URL", "") != "" then TrimRight(env["BASE_URL"], SLASH)
    else if Given(host) then
      var p := if Given(port) then port.value else EnvGet(env, "PORT", DEFAULT_PORT);
      "http://" + host.value + ":" + p
    else "http://localhost:" + EnvGet(env, "PORT", DEFAULT_PORT)
  }

  /** An explicit URL, from the argument or the environment, never keeps a
      trailing slash. */
  lemma BaseUrlHasNoTrailingSlash(baseUrl: Option<string>, host: Option<string>, port: Option<string>, env: map<string, string>)
    requires Given(baseUrl) || EnvGet(env, "BASE_URL", "") != ""
    ensures var url := ResolveBaseUrl(baseUrl, host, port, env); url == [] || url[|url| - 1] != '/'
  {
  }

  /** `--base-url` makes host, port and environment irrelevant. */
  lemma BaseUrlArgumentWins(baseUrl: string, host1: Option<string>, port1: Option<string>, env1: map<string, string>,
                            host2: Option<string>, port2: Option<string>, env2: map<string, string>)
    requires baseUrl != ""
    ensures ResolveBaseUrl(Some(baseUrl), host1, port1, env1) == ResolveBaseUrl(Some(baseUrl), host2, port2, env2)
  {
  }

  /** With nothing configured the server is looked for on localhost:8000. */
  lemma BaseUrlDefault()
    ensures ResolveBaseUrl(None, None, None, map[]) == "http://localhost:8000"
  {
  }

  /** Where the generated sites are served: an explicit root, or the one
      derived from the scheme and host name of the API base URL. */
  datatype SiteRoot = Root(url: string) | DerivedFrom(baseUrl: string)

  /** `_resolve_remote_site_url`: `--remote-url`, then REMOTE_SITE_URL (both
      without trailing '/'), then `http://<host>`; otherwise the root is
      derived from the base URL. */
  function ResolveRemoteSiteUrl(remoteUrl: Option<string>, host: Option<string>, env: map<string, string>, baseUrl: string): (r: SiteRoot)
    ensures Given(remoteUrl) ==> r == Root(TrimRight(remoteUrl.value, SLASH))
    ensures !Given(remoteUrl) && EnvGet(env, "REMOTE_SITE_URL", "") != "" ==>
      r == Root(TrimRight(env["REMOTE_SITE_URL"], SLASH))
    ensures !Given(remoteUrl) && EnvGet(env, "REMOTE_SITE_URL", "") == "" ==>
      r == if Given(host) then Root("http://" + host.value) else DerivedFrom(baseUrl)
  {
    if Given(remoteUrl) then Root(TrimRight(remoteUrl.value, SLASH))
    else if EnvGet(env, "REMOTE_SITE_URL", "") != "" then Root(TrimRight(env["REMOTE_SITE_URL"], SLASH))
    else if Given(host) then Root("http://" + host.value)
    else DerivedFrom(baseUrl)
  }

  /** With REMOTE_SITE_URL set and no `--remote-url`, the test looks for the
      sites exactly where the server says they are. */
  lemma RemoteSiteUrlAgreesWithServer(host: Option<string>, env: map<string, string>, baseUrl: string)
    requires EnvGet(env, "REMOTE_SITE_URL", "") != ""
    ensures ResolveRemoteSiteUrl(None, host, env, baseUrl) == Root(Site.RemoteSiteRoot(env))
  {
  }

  // ---------------------------------------------------------------------
  // Query resolution and the scrape request
  // ---------------------------------------------------------------------

  const DEFAULT_QUERY: string := "parrucchiere la spezia"

  /** QUERY, BUSINESS_TYPE and LOCATION as the test resolves them. */
  datatype SearchConfig = SearchConfig(query: string, businessType: string, location: string)

  /** The structured form applies when both stripped fields are non-empty;
      otherwise the raw query comes from `--query`, QUERY or the default,
      and both structured fields are cleared. */
  function ResolveQuery(businessType: Option<string>, location: Option<string>, query: Option<string>, env: map<string, string>): (c: SearchConfig)
    ensures (c.businessType == "") == (c.location == "")
    ensures c.businessType == "" <==>
      Strip(if businessType.Some? then businessType.value else "") == ""
      || Strip(if location.Some? then location.value else "") == ""
    ensures c.businessType != "" ==>
      && c.businessType == Strip(businessType.value)
      && c.location == Strip(location.value)
      && c.query == c.businessType + " " + c.location
    ensures c.businessType == "" ==>
      c.query == if Given(query) then query.value else EnvGet(env, "QUERY", DEFAULT_QUERY)
  {
    var bt := Strip(if businessType.Some? then businessType.value else "");
    var loc := Strip(if location.Some? then location.value else "");
    if bt != "" && loc != "" then SearchConfig(bt + " " + loc, bt, loc)
    else SearchConfig(if Given(query) then query.value else EnvGet(env, "QUERY", DEFAULT_QUERY), "", "")
  }

  /** The `/scrape-maps` parameters of `step_scrape` (query, business_type,
      location, with "" for one not sent). */
  function ScrapeRequest(c: SearchConfig): (p: (string, string, string))
    ensures p.1 != "" <==> c.businessType != "" && c.location != ""
    ensures (p.1 == "") == (p.2 == "")
    ensures p.1 != "" ==> p.0 == "" && p.1 == c.businessType && p.2 == c.location
    ensures p.1 == "" ==> p.0 == c.query
  {
    if c.businessType != "" && c.location != "" then ("", c.businessType, c.location)
    else (c.query, "", "")
  }

  /** The server accepts the test's request exactly when the resolved query
      is non-empty, and then searches for that query without surrounding
      whitespace. */
  lemma ScrapeRequestAccepted(businessType: Option<string>, location: Option<string>, query: Option<string>, env: map<string, string>)
    ensures var c := ResolveQuery(businessType, location, query, env);
      var p := ScrapeRequest(c);
      var r := Site.ScrapeQuery(p.0, p.1, p.2);
      (r.Ok? <==> c.query != "") && (r.Ok? ==> r.value == Strip(c.query))
  {
    var c := ResolveQuery(businessType, location, query, env);
    if c.businessType != "" && c.location != "" {
      var bt := c.businessType;
      var loc := c.location;
      TrimIdempotent(if businessType.Some? then businessType.value else "", WHITESPACE);
      TrimIdempotent(if location.Some? then location.value else "", WHITESPACE);
      var joined := bt + " " + loc;
      assert joined[0] == bt[0] && joined[|joined| - 1] == loc[|loc| - 1];
      TrimOfTrimmed(joined, WHITESPACE);
    }
  }

  // ---------------------------------------------------------------------
  // `step_build_log` and the result counters
  // ---------------------------------------------------------------------

  /** The label the test prints for each build status. */
  function StatusLabel(s: BuildLog.Status): string {
    match s
    case Complete => "COMPLETE"
    case Failed => "FAILED"
    case InProgress => "IN PROGRESS"
  }

  /** The classification in `step_build_log`, a copy of the server's: it
      always names the status `get_build_log` reports for the same log. */
  function StepBuildLogLabel(log: string): (shown: string)
    ensures shown == StatusLabel(BuildLog.BuildStatus(log))
  {
    var tail := BuildLog.LogTail(log);
    if Contains(tail, BuildLog.OPEN_MARKER) then "COMPLETE"
    else if Contains(tail, BuildLog.FAILED_MARKER) || Contains(tail, BuildLog.EXIT_MARKER) then "FAILED"
    else "IN PROGRESS"
  }

  /** PASS_COUNT, FAIL_COUNT and SKIP_COUNT with `ok`, `fail` and `skip`. */
  class Counters {
    var passed: nat
    var failed: nat
    var skipped: nat

    constructor()
      ensures passed == 0 && failed == 0 && skipped == 0
    {
      passed, failed, skipped := 0, 0, 0;
    }

    /** The process exit status at the end of `main`: 1 once anything failed. */
    function ExitStatus(): (code: int)
      reads this
      ensures code == 0 || code == 1
      ensures code == 1 <==> failed > 0
    {
      if failed > 0 then 1 else 0
    }

    /** `ok(msg)`. */
    method Ok()
      modifies this
      ensures passed == old(passed) + 1 && failed == old(failed) && skipped == old(skipped)
    {
      passed := passed + 1;
    }

    /** `skip(msg)`. */
    method Skip()
      modifies this
      ensures skipped == old(skipped) + 1 && passed == old(passed) && failed == old(failed)
    {
      skipped := skipped + 1;
    }

    /** `fail(msg, fatal)`: counts the failure; a fatal one ends the run at
      once, with exit status 1. */
    method Fail(fatal: bool) returns (exit: Option<int>)
      modifies this
      ensures failed == old(failed) + 1 && passed == old(passed) && skipped == old(skipped)
      ensures exit == if fatal then Some(1) else None
      ensures ExitStatus() == 1
    {
      failed := failed + 1;
      exit := if fatal then Some(1) else None;
    }
  }
}
