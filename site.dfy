/** The request-side rules of the FastAPI service (main.py): cleaning text
    scraped from Google Maps, the site identifier ("slug") derived from a
    business name, validation of a scrape request, and the shape of the
    `/generate-site` response and of the webhook payload sent when a build
    ends. */
module Site {
  import opened Wrappers
  import opened PyStr

  /** A code point of the Private Use Area U+E000..U+F8FF, where Google Maps
      puts its icon glyphs. */
  predicate IsPrivateUse(c: char) { '\U{E000}' <= c <= '\U{F8FF}' }

  predicate NotPrivateUse(c: char) { !IsPrivateUse(c) }

  /** `clean_google_text`: drop the private-use code points, then strip
      surrounding whitespace. */
  function CleanGoogleText(text: string): (r: string)
    ensures text == [] ==> r == []
    ensures forall i :: 0 <= i < |r| ==> !IsPrivateUse(r[i])
    ensures r == [] || (!IsSpace(r[0]) && !IsSpace(r[|r| - 1]))
  {
    if text == [] then ""
    else
      var kept := Filter(text, NotPrivateUse);
      TrimIsInfix(kept, WHITESPACE);
      Strip(kept)
  }

  /** Cleaning a cleaned text changes nothing. */
  lemma CleanGoogleTextIdempotent(text: string)
    ensures CleanGoogleText(CleanGoogleText(text)) == CleanGoogleText(text)
  {
    var r := CleanGoogleText(text);
    if r != [] {
      FilterAllKept(r, NotPrivateUse);
      TrimOfTrimmed(r, WHITESPACE);
    }
  }

  /** A private-use code point anywhere in the input has no effect on the
      result. */
  lemma CleanGoogleTextIgnoresPrivateUse(a: string, c: char, b: string)
    requires IsPrivateUse(c)
    ensures CleanGoogleText(a + [c] + b) == CleanGoogleText(a + b)
  {
    var f := Filter(a + [c] + b, NotPrivateUse);
    assert f == Filter(a + b, NotPrivateUse) by {
      FilterAppend(a + [c], b, NotPrivateUse);
      FilterAppend(a, [c], NotPrivateUse);
      FilterAppend(a, b, NotPrivateUse);
      assert Filter([c], NotPrivateUse) == [];
    }
    if a + b == [] {
      assert f == [];
      assert Strip(f) == [];
    }
  }

  /** Text without private-use code points and without surrounding
      whitespace is returned as it is, character for character. */
  lemma CleanGoogleTextKeepsCleanText(text: string)
    requires forall i :: 0 <= i < |text| ==> !IsPrivateUse(text[i])
    requires text == [] || (!IsSpace(text[0]) && !IsSpace(text[|text| - 1]))
    ensures CleanGoogleText(text) == text
  {
    if text != [] {
      FilterAllKept(text, NotPrivateUse);
      TrimOfTrimmed(text, WHITESPACE);
    }
  }

  /** Whitespace around the text is removed, whatever it is. */
  lemma CleanGoogleTextDropsPadding(lead: string, text: string, trail: string)
    requires forall i :: 0 <= i < |lead| ==> IsSpace(lead[i])
    requires forall i :: 0 <= i < |trail| ==> IsSpace(trail[i])
    ensures CleanGoogleText(lead + text + trail) == CleanGoogleText(text)
  {
    var f := Filter(text, NotPrivateUse);
    FilterKeepsPadding(lead, text, trail);
    TrimPadding(lead, f, trail, WHITESPACE);
    if text == [] {
      assert Trim(f, WHITESPACE) == [];
    }
  }

  /** Whitespace is never a private-use character, so the filter keeps
      padding where it is. */
  lemma FilterKeepsPadding(lead: string, text: string, trail: string)
    requires forall i :: 0 <= i < |lead| ==> IsSpace(lead[i])
    requires forall i :: 0 <= i < |trail| ==> IsSpace(trail[i])
    ensures Filter(lead + text + trail, NotPrivateUse) == lead + Filter(text, NotPrivateUse) + trail
  {
    SpaceIsNotPrivateUse();
    FilterAllKept(lead, NotPrivateUse);
    FilterAllKept(trail, NotPrivateUse);
    FilterAppend(lead + text, trail, NotPrivateUse);
    FilterAppend(lead, text, NotPrivateUse);
  }

  lemma SpaceIsNotPrivateUse()
    ensures forall c :: IsSpace(c) ==> NotPrivateUse(c)
  {
  }

  /** Characters a slug may contain: `[a-z0-9-]`. */
  predicate IsSlugChar(c: char) { 'a' <= c <= 'z' || '0' <= c <= '9' || c == '-' }

  /** `_site_slug` (and `slug` in tests/test-all.py): lower-case the name,
      turn spaces into hyphens, then keep only `[a-z0-9-]`. */
  function SiteSlug(name: string): (r: string)
    ensures forall i :: 0 <= i < |r| ==> IsSlugChar(r[i])
  {
    Filter(ReplaceChar(Lower(name), ' ', '-'), IsSlugChar)
  }

  /** The slug of a concatenation is the concatenation of the slugs. */
  lemma SiteSlugAppend(a: string, b: string)
    ensures SiteSlug(a + b) == SiteSlug(a) + SiteSlug(b)
  {
    LowerAppend(a, b);
    var la, lb := Lower(a), Lower(b);
    assert ReplaceChar(la + lb, ' ', '-') == ReplaceChar(la, ' ', '-') + ReplaceChar(lb, ' ', '-');
    FilterAppend(ReplaceChar(la, ' ', '-'), ReplaceChar(lb, ' ', '-'), IsSlugChar);
  }

  /** Each ASCII space of the name becomes a hyphen of the slug. */
  lemma SiteSlugSpace(a: string, b: string)
    ensures SiteSlug(a + " " + b) == SiteSlug(a) + "-" + SiteSlug(b)
  {
    SiteSlugAppend(a + " ", b);
    SiteSlugAppend(a, " ");
    SiteSlugOfSpace();
  }

  lemma SiteSlugOfSpace()
    ensures SiteSlug(" ") == "-"
  {
    SiteSlugChar(' ');
    assert LowerChar(' ') == [' '];
    assert ReplaceChar([' '], ' ', '-') == ['-'];
    FilterAllKept(['-'], IsSlugChar);
  }

  /** A string already made of slug characters is its own slug. */
  lemma SiteSlugOfSlugChars(s: string)
    requires forall i :: 0 <= i < |s| ==> IsSlugChar(s[i])
    ensures SiteSlug(s) == s
  {
    LowerOfSlugChars(s);
    assert ReplaceChar(s, ' ', '-') == s;
    FilterAllKept(s, IsSlugChar);
  }

  lemma {:induction false} LowerOfSlugChars(s: string)
    requires forall i :: 0 <= i < |s| ==> IsSlugChar(s[i])
    ensures Lower(s) == s
    decreases |s|
  {
    if s != [] {
      LowerOfSlugChars(s[1..]);
    }
  }

  /** `_site_slug` is idempotent. */
  lemma SiteSlugIdempotent(name: string)
    ensures SiteSlug(SiteSlug(name)) == SiteSlug(name)
  {
    SiteSlugOfSlugChars(SiteSlug(name));
  }

  /** The slug of a single character. */
  lemma SiteSlugChar(c: char)
    ensures SiteSlug([c]) == Filter(ReplaceChar(LowerChar(c), ' ', '-'), IsSlugChar)
  {
    assert [c][1..] == [];
    assert Lower([c]) == LowerChar(c) + Lower([]);
    assert LowerChar(c) + [] == LowerChar(c);
  }

  /** A character outside ASCII survives in a slug only through its
      lower case: the Kelvin sign gives "k", the capital I with dot above
      gives "i" (its combining dot is dropped), and every other one is
      dropped. */
  lemma SiteSlugNonAscii(c: char)
    requires c as int >= 0x80
    ensures SiteSlug([c]) == (if c == '\U{212A}' then "k" else if c == '\U{130}' then "i" else "")
  {
    SiteSlugChar(c);
    if c == '\U{212A}' {
      assert ReplaceChar("k", ' ', '-') == "k";
      FilterAllKept("k", IsSlugChar);
    } else if c == '\U{130}' {
      var l := "i\U{307}";
      assert ReplaceChar(l, ' ', '-') == l;
      assert Filter(l, IsSlugChar) == "i" + Filter(l[1..], IsSlugChar);
      assert l[1..] == "\U{307}";
    } else {
      assert ReplaceChar([c], ' ', '-') == [c];
    }
  }

  /** An upper-case ASCII letter becomes its lower-case letter. */
  lemma SiteSlugUpper(c: char)
    requires 'A' <= c <= 'Z'
    ensures SiteSlug([c]) == [(c as int + 32) as char]
  {
    SiteSlugChar(c);
    var l := (c as int + 32) as char;
    assert ReplaceChar([l], ' ', '-') == [l];
    FilterAllKept([l], IsSlugChar);
  }

  /** An ASCII character outside letters, digits, space and hyphen is dropped. */
  lemma SiteSlugDropped(c: char)
    requires c < '\U{80}' && !('A' <= c <= 'Z') && !IsSlugChar(c) && c != ' '
    ensures SiteSlug([c]) == []
  {
    SiteSlugChar(c);
    assert ReplaceChar([c], ' ', '-') == [c];
  }

  /** The HTTP status `/scrape-maps` answers with when neither a query nor
      both structured fields are given. */
  const UNPROCESSABLE: int := 422

  /** Query validation and composition of `/scrape-maps`: the query the
      scraper runs, or the HTTP error code. */
  function ScrapeQuery(query: string, businessType: string, location: string): (r: Result<string>)
    ensures r.Err? <==> query == "" && (businessType == "" || location == "")
    ensures r.Err? ==> r.code == UNPROCESSABLE
    ensures businessType != "" && location != "" ==>
      r == Ok(Strip(businessType) + " " + Strip(location))
    ensures query != "" && (businessType == "" || location == "") ==> r == Ok(Strip(query))
  {
    if query == "" && !(businessType != "" && location != "") then Err(UNPROCESSABLE)
    else if businessType != "" && location != "" then Ok(Strip(businessType) + " " + Strip(location))
    else Ok(Strip(query))
  }

  /** When both structured fields are given the raw query plays no part. */
  lemma ScrapeQueryStructuredWins(q1: string, q2: string, businessType: string, location: string)
    requires businessType != "" && location != ""
    ensures ScrapeQuery(q1, businessType, location) == ScrapeQuery(q2, businessType, location)
  {
  }

  /** The root under which generated sites are served: `REMOTE_SITE_URL`
      from the environment (empty when unset), trailing slashes removed. */
  function RemoteSiteRoot(env: map<string, string>): (root: string)
    ensures root == [] || root[|root| - 1] != '/'
    ensures "REMOTE_SITE_URL" !in env ==> root == ""
    ensures root <= (if "REMOTE_SITE_URL" in env then env["REMOTE_SITE_URL"] else "")
    ensures "REMOTE_SITE_URL" in env ==>
      forall k :: |root| <= k < |env["REMOTE_SITE_URL"]| ==> env["REMOTE_SITE_URL"][k] == '/'
  {
    TrimRight(if "REMOTE_SITE_URL" in env then env["REMOTE_SITE_URL"] else "", {'/'})
  }

  /** The public address of a generated site. */
  function SiteUrl(root: string, slug: string): string {
    root + "/" + slug + "/index.html"
  }

  /** The HTTP status of `/generate-site` when create.sh is missing. */
  const SERVER_ERROR: int := 500

  /** `generate_site`: the JSON body returned at once (the build itself is
      queued as a background task). */
  function GenerateSite(scriptExists: bool, businessName: string, root: string): (r: Result<map<string, string>>)
    ensures r.Err? <==> !scriptExists
    ensures r.Err? ==> r.code == SERVER_ERROR
    ensures r.Ok? ==>
      && r.value.Keys == {"status", "message", "site_slug"} + (if root != "" then {"site_url"} else {})
      && r.value["status"] == "processing"
      && r.value["message"] == "Job added to queue."
      && r.value["site_slug"] == SiteSlug(businessName)
      && ("site_url" in r.value ==> r.value["site_url"] == SiteUrl(root, SiteSlug(businessName)))
  {
    if !scriptExists then Err(SERVER_ERROR)
    else
      var slug := SiteSlug(businessName);
      var response := map["status" := "processing", "message" := "Job added to queue.", "site_slug" := slug];
      Ok(if root != "" then response["site_url" := SiteUrl(root, slug)] else response)
  }

  /** How the create.sh run of `build_site_and_notify` ended. */
  datatype BuildOutcome =
    | Exited(returnCode: int, stderr: string)   // exited on its own, with its decoded stderr
    | TimedOut                                  // killed after BUILD_TIMEOUT seconds
    | Crashed(error: string)                    // any other exception, as `str(e)`

  /** Hard ceiling of a build, in seconds. */
  const BUILD_TIMEOUT: nat := 900

  /** `build_site_and_notify`: the JSON payload posted to the webhook. */
  function WebhookPayload(outcome: BuildOutcome, businessName: string, root: string): (p: map<string, string>)
    ensures "status" in p
    ensures p["status"] == "success" <==> outcome.Exited? && outcome.returnCode == 0
    ensures p["status"] == "success" ==>
      && p.Keys == {"status", "business_name", if root != "" then "site_url" else "site_slug"}
      && p["business_name"] == businessName
      && ("site_url" in p ==> p["site_url"] == SiteUrl(root, SiteSlug(businessName)))
      && ("site_slug" in p ==> p["site_slug"] == SiteSlug(businessName))
    ensures outcome.Exited? && outcome.returnCode != 0 ==>
      p == map["status" := "error", "error" := Strip(outcome.stderr)]
  {
    match outcome
    case TimedOut =>
      map["status" := "timeout", "business_name" := businessName,
          "error" := "Build exceeded " + ShowNat(BUILD_TIMEOUT / 60) + "-minute timeout and was killed."]
    case Crashed(e) =>
      map["status" := "error", "error" := e]
    case Exited(code, err) =>
      if code == 0 then
        var slug := SiteSlug(businessName);
        var payload := map["status" := "success", "business_name" := businessName];
        if root != "" then payload["site_url" := SiteUrl(root, slug)] else payload["site_slug" := slug]
      else
        map["status" := "error", "error" := Strip(err)]
  }

  /** A success payload names the site by exactly one of `site_url` and
      `site_slug`. */
  lemma SuccessPayloadNamesSiteOnce(stderr: string, businessName: string, root: string)
    ensures var p := WebhookPayload(Exited(0, stderr), businessName, root);
      ("site_url" in p) != ("site_slug" in p)
  {
  }

  /** The site named when a build succeeds is the one announced when it was
      queued: the same URL when a remote root is set, the same slug
      otherwise. */
  lemma WebhookAgreesWithResponse(stderr: string, businessName: string, root: string)
    ensures var r := GenerateSite(true, businessName, root);
      var p := WebhookPayload(Exited(0, stderr), businessName, root);
      && r.Ok?
      && (root != "" ==> "site_url" in r.value && "site_url" in p && p["site_url"] == r.value["site_url"])
      && (root == "" ==> "site_url" !in r.value && "site_slug" in p && p["site_slug"] == r.value["site_slug"])
  {
  }
}
