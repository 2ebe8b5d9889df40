# Review Site Factory: a Dafny model of the API server, its end-to-end test and the image generator

The repository builds one-page review sites for local businesses. Its
Python core has four parts, and this project models each as Dafny
functions, methods and classes with proved contracts:

- **The FastAPI server (`main.py`).**
  - It cleans text scraped from Google Maps.
  - It derives a site slug from a business name, validates and normalises
    scrape requests, and queues a `create.sh` build.
  - When the build ends it posts a webhook, and it reports a site's
    `build.log`: a build status, the statistics parsed from the log, and
    the log itself, optionally tailed.
- **The end-to-end test driver (`tests/test-all.py`).** It resolves its
  configuration from arguments, environment variables and defaults. It
  builds the scrape request, labels the build status and counts
  passes, failures and skips.
- **The `.env` loader** found at the top of both Python programs. It fills
  in environment variables that are not already set. A line with an empty
  name, or with a NUL character, makes `setdefault` raise, and the load stops
  there.
- **The image generator of the nano-banana-pro skill
  (`skills/nano-banana-pro/scripts/image.py`).** It assembles the prompt,
  tries the Gemini and OpenRouter providers in order, and finds the image
  in an OpenRouter reply.

## How the model is arranged

| file | module | models |
|---|---|---|
| `wrappers.dfy` | `Wrappers` | `Option` and `Result` (an error carries its HTTP status code) |
| `pystr.dfy` | `PyStr` | the Python string operations the core relies on (see below) |
| `site.dfy` | `Site` | `clean_google_text`, `_site_slug`, the scrape-request check, `/generate-site`, the webhook payload |
| `build_log.dfy` | `BuildLog` | `_parse_build_stats`, the status detection and tailing of `get_build_log` |
| `dot_env.dfy` | `DotEnv` | the `.env` loader, with the process environment as a class |
| `test_config.dfy` | `TestConfig` | `_resolve_bool`, `_resolve_base_url`, `_resolve_remote_site_url`, the query resolution, the build-log label, the result counters |
| `image.dfy` | `ImageGen` | the prompt, the provider fallback, and the Gemini and OpenRouter reply handling |

`PyStr` writes out the Python semantics the core depends on:

- `str.isspace()` and the regex class `\s` use the same 29-character
  whitespace set.
- `str.splitlines()` uses its own line-boundary set, including `"\r\n"`.
- `strip`, `lstrip` and `rstrip` are modelled with an explicit character
  set.
- `lower()` maps the ASCII capitals, U+212A KELVIN SIGN and U+0130.
- `re.search` is modelled as a search for the leftmost match over
  suffixes. `\d` is restricted to ASCII digits.

Inputs that come from the outside are parameters:

- the contents of files, and whether a file exists;
- the outcome of the `create.sh` run;
- HTTP status codes and decoded JSON bodies;
- the outcome of each image provider.

Each stateful entity whose fields the source updates in place is a class:

| class | models | operations |
|---|---|---|
| `DotEnv.Environ` | `os.environ` | `SetDefault`, `LoadDotEnv` |
| `TestConfig.Counters` | `PASS_COUNT`, `FAIL_COUNT` and `SKIP_COUNT` | `Ok`, `Fail`, `Skip` |

Loops in the source are methods with loop invariants:

- the `.env` loop;
- the provider fallback of `generate_image`;
- the part loops of the Gemini and OpenRouter replies.

Each loop method is proved against a function or states its result
outright.

The same code appears twice in the source, and each copy is modelled once:

- `tests/test-all.py:245-249` (`slug`) is the same as `main.py:125-129`,
  modelled by `Site.SiteSlug`.
- `tests/test-all.py:469-501` (`_parse_build_stats`) is the same as
  `main.py:215-249`, modelled by `BuildLog.ParseBuildStats`.
- `tests/test-all.py:67-74` (the `.env` loader) is the same as
  `main.py:14-21`, modelled by `DotEnv`.

## Model

| member | source | states |
|---|---|---|
| Site.CleanGoogleText | main.py:94-103 | empty text gives ""; the result holds no private-use character (U+E000 to U+F8FF) and has no whitespace at either end |
| Site.CleanGoogleTextIdempotent | main.py:94-103 | cleaning cleaned text changes nothing |
| Site.CleanGoogleTextIgnoresPrivateUse | main.py:100 | a private-use character anywhere in the text has no effect on the result |
| Site.CleanGoogleTextKeepsCleanText | main.py:94-103 | text without private-use characters or outer whitespace comes back unchanged |
| Site.CleanGoogleTextDropsPadding | main.py:100-103 | whitespace padding around the text is dropped |
| Site.FilterKeepsPadding | main.py:100 | removing private-use characters leaves whitespace padding in place |
| Site.SiteSlug | main.py:125-129 | every character of a slug is a lower-case ASCII letter, a digit or '-' |
| Site.SiteSlugAppend | main.py:127-128 | the slug of a concatenation is the concatenation of the slugs |
| Site.SiteSlugSpace | main.py:127 | a space between two words becomes a hyphen between their slugs |
| Site.SiteSlugOfSpace | main.py:127 | a space becomes "-" |
| Site.SiteSlugOfSlugChars | main.py:127-128 | a string made only of slug characters is its own slug |
| Site.SiteSlugIdempotent | main.py:125-129 | the slug of a slug is the slug |
| Site.SiteSlugNonAscii | main.py:127-128 | a non-ASCII character is dropped, except KELVIN SIGN, which becomes "k", and LATIN CAPITAL I WITH DOT ABOVE, which becomes "i" |
| Site.SiteSlugUpper | main.py:127 | an ASCII capital becomes its lower-case letter |
| Site.SiteSlugDropped | main.py:128 | an ASCII character other than a letter, a digit, '-' or a space is dropped |
| Site.ScrapeQuery | main.py:413-425 | status 422 exactly when there is no query and the structured pair is incomplete; otherwise the stripped pair joined by a space, or the stripped query |
| Site.ScrapeQueryStructuredWins | main.py:420-423 | with both structured fields given, the raw query has no influence |
| Site.RemoteSiteRoot | main.py:28 | the root has no trailing '/', is empty when REMOTE_SITE_URL is unset, and is the variable with only '/' characters removed from its end |
| Site.GenerateSite | main.py:191-208 | 500 exactly when create.sh is missing; otherwise "processing" with the slug, and `site_url` only under a remote root |
| Site.WebhookPayload | main.py:154-189 | "success" exactly on exit code 0, naming the business and exactly one of `site_url` and `site_slug`; a non-zero exit reports the stripped stderr |
| Site.SuccessPayloadNamesSiteOnce | main.py:167-174 | a success payload carries exactly one of `site_url` and `site_slug` |
| Site.WebhookAgreesWithResponse | main.py:167-206 | the site named on success is the one named when the job was queued |
| BuildLog.LogTail | main.py:274 | the tail is the last min(length, 2000) characters of the log |
| BuildLog.BuildStatus | main.py:273-280 | complete iff the tail contains "🌐 Open:"; failed iff not complete and the tail contains "❌ Failed" or "exit 1"; otherwise in progress |
| BuildLog.BuildStatusReadsOnlyTail | main.py:274 | anything written before the last 2000 characters does not affect the status |
| BuildLog.OpenMarkerAtEndCompletes | main.py:274-276 | a log whose last 2000 characters contain the Open marker is complete, whatever came before |
| BuildLog.TailLog | main.py:271 | a non-positive `lines` returns the whole log |
| BuildLog.TailLogLines | main.py:271 | for `lines` > 0 the result splits into exactly the last `lines` lines of the log |
| BuildLog.TailLogWholeLog | main.py:271 | a "\n"-separated log is returned unchanged once `lines` covers all of its lines |
| BuildLog.Search | main.py:222-247 | a match that `re.search` reports is the match at some position of the text |
| BuildLog.AfterLabelShape | main.py:222-246 | a label followed by `\s+` is found iff the text starts with the label and then whitespace; the rest follows that whitespace |
| BuildLog.LeadingNumberShape | main.py:228-233 | `\d+` matches iff the text starts with a digit; it takes the whole run of digits and reads its value |
| BuildLog.MatchCount | main.py:233 | a match is the label, whitespace, and a maximal run of digits whose value is the result |
| BuildLog.MatchFailed | main.py:233 | a `Failed:\s+(\d+)` match is "Failed:", whitespace and a maximal digit run whose value is the result |
| BuildLog.CountsAt | main.py:228 | a match of `\d+\s*/\s*\d+` is digits, optional whitespace, '/', optional whitespace and a maximal digit run, and the result is the two values |
| BuildLog.MatchGenerated | main.py:228 | a match is "Generated:", whitespace and a counts match, whose pair is the result |
| BuildLog.MatchDuration | main.py:222 | a match is the label, whitespace and a value of the form digits, 'm', whitespace, digits, 's' |
| BuildLog.MatchTotalTime | main.py:222 | a `Total time:` match is "Total time:", whitespace and a value `<digits>m <digits>s` |
| BuildLog.MatchToken | main.py:239-242 | a `\S+` match is a non-empty run without whitespace after the label and whitespace, ending at whitespace or the end of the text |
| BuildLog.MatchAssetsSize | main.py:239 | an `Assets size:` match is a maximal non-empty run without whitespace after the label |
| BuildLog.MatchTotalSize | main.py:242 | a `Total size:` match is a maximal non-empty run without whitespace after the label |
| BuildLog.MatchUrl | main.py:246 | a URL match starts with http:// or https:// followed by at least one character, has no whitespace and is maximal |
| BuildLog.MatchOpenUrl | main.py:246 | an `Open:` match is an http or https URL without whitespace, maximal, after "Open:" and whitespace |
| BuildLog.SearchFindsFirst | main.py:222-247 | `re.search` finds nothing iff no position matches, and otherwise reports the leftmost match |
| BuildLog.RecordStats | main.py:220-249 | each statistic is present exactly when its pattern matched, with the matched value |
| BuildLog.ParseBuildStats | main.py:215-249 | each of the seven statistics is the first match of its own pattern in the whole log, and is absent when that pattern does not match |
| BuildLog.CountsAtReadsCounts | main.py:228 | any digit run, optional whitespace, '/', optional whitespace and a maximal digit run read back as the values of the two runs |
| BuildLog.MatchGeneratedReadsCounts | main.py:228-231 | "Generated:", whitespace and any such counts text, digits possibly with leading zeros, read back as the values of its two digit runs |
| BuildLog.MatchFailedReadsCount | main.py:233-234 | "Failed:", whitespace and any maximal digit run read back as the value of that run |
| BuildLog.MatchCountReads | main.py:233 | a label, whitespace and any maximal digit run read back as the value of that run |
| BuildLog.MatchDurationReads | main.py:222 | the label, whitespace and any value of the form digits, 'm', whitespace, digits, 's' are matched, and the value is the result, whatever follows it |
| BuildLog.MatchTotalTimeReads | main.py:222 | "Total time:", whitespace and any `<digits>m<whitespace><digits>s` value read back as that value |
| BuildLog.MatchTokenReads | main.py:239-242 | the label, whitespace and any non-empty run without whitespace, ended by whitespace or the end of the text, read back as that run |
| BuildLog.MatchAssetsSizeReads | main.py:239 | "Assets size:", whitespace and any such run read back as that run |
| BuildLog.MatchTotalSizeReads | main.py:242 | "Total size:", whitespace and any such run read back as that run |
| BuildLog.MatchUrlReads | main.py:246 | the label, whitespace and any http:// or https:// URL without whitespace, ended by whitespace or the end of the text, read back as that URL |
| BuildLog.MatchOpenUrlReads | main.py:246 | "Open:", whitespace and any such URL read back as that URL |
| BuildLog.GetBuildLog | main.py:252-287 | 404 exactly when the log file is missing; otherwise the slug, the status of the whole log, its parsed statistics and the (tailed) log |
| DotEnv.EnvValue | main.py:21 | the value is the stripped raw text with quote characters removed only from its two ends; it neither starts nor ends with a single quote |
| DotEnv.ParseEnvLine | main.py:18-21 | a line is skipped iff it is blank, a comment or has no '='; a key has no '=' and no outer whitespace, and may be empty (a line `=value`) |
| DotEnv.ParseEnvLineSplits | main.py:18-21 | a line that strips to `name=raw`, with no '=' in `name` and no leading '#', sets the stripped name to the reading of `raw` |
| DotEnv.ParseEnvLineOfEmptyName | main.py:18-21 | a line that strips to `=raw` sets the empty name to the reading of `raw` |
| DotEnv.ParseEnvLinePadded | main.py:18 | whitespace around a line, including its newline, does not change what it sets |
| DotEnv.EnvValueOfQuoted | main.py:21 | a value written bare, in double quotes or in single quotes reads back as itself |
| DotEnv.SplitAtFirstEquals | main.py:20 | a line is split at the first '=' after the key |
| DotEnv.ParseEnvLineOfRaw | main.py:18-21 | `key=raw` sets the key to the loader's reading of `raw` |
| DotEnv.ParseEnvLineOfAssignment | main.py:18-21 | `KEY=value`, `KEY="value"` and `KEY='value'` set KEY to value, even when the value contains '=' |
| DotEnv.WithDefault | main.py:21 | setdefault changes no variable that is already set; it adds a missing key, and raises exactly when the key is missing and is empty or holds a NUL, or the value holds a NUL |
| DotEnv.LoadEnv | main.py:14-21 | when the loader finishes, every variable set before it keeps its value |
| DotEnv.LoadEnvUnmentioned | main.py:17-21 | when the loader finishes, a variable no line defines is exactly as it was |
| DotEnv.LoadEnvFirstWins | main.py:17-21 | when the loader finishes, an unset variable takes the value of the first line that defines it |
| DotEnv.LoadEnvStopsAtRaise | main.py:17-21 | once a setdefault raises, later lines cannot make the loader finish |
| DotEnv.LoadEnvRejectsEmptyName | main.py:20-21 | with no empty-named variable set, a line `=value` makes the loader raise |
| DotEnv.Environ.SetDefault | main.py:21 | reports failure exactly when setdefault raises, and then leaves the environment unchanged; otherwise the environment becomes its setdefault update |
| DotEnv.Environ.LoadDotEnv | main.py:14-21 | finishes exactly when the loader does, leaving the fold of the lines over the old environment; on a raise, stops at the first failing line with the earlier lines applied |
| TestConfig.ResolveBool | tests/test-all.py:107-115 | an explicit argument wins; otherwise true, false or the default according to the lower-cased variable |
| TestConfig.ResolveBoolUnset | tests/test-all.py:110-115 | an unset variable gives the default |
| TestConfig.ResolveBoolIgnoresCase | tests/test-all.py:110-114 | any spelling of "true", "1", "yes", "false", "0" or "no" with any letters in capitals is read as that word |
| TestConfig.ResolveBaseUrl | tests/test-all.py:119-132 | `--base-url`, then BASE_URL (without trailing '/'), then host and port, then localhost with PORT or 8000 |
| TestConfig.BaseUrlHasNoTrailingSlash | tests/test-all.py:121-125 | an explicit base URL never ends in '/' |
| TestConfig.BaseUrlArgumentWins | tests/test-all.py:121-122 | with `--base-url`, host, port and environment do not matter |
| TestConfig.BaseUrlDefault | tests/test-all.py:130-132 | with nothing configured the URL is http://localhost:8000 |
| TestConfig.ResolveRemoteSiteUrl | tests/test-all.py:155-177 | `--remote-url`, then REMOTE_SITE_URL (without trailing '/'), then http://host, otherwise derived from the base URL |
| TestConfig.RemoteSiteUrlAgreesWithServer | tests/test-all.py:167-168 | with REMOTE_SITE_URL set, the test uses the same site root as the server |
| TestConfig.ResolveQuery | tests/test-all.py:142-149 | the structured pair is used iff both stripped fields are non-empty, and the query is then the pair joined by a space; otherwise it comes from `--query`, QUERY or the default |
| TestConfig.ScrapeRequest | tests/test-all.py:272-285 | the structured parameters are sent with no query iff both fields are set; otherwise only the query is sent |
| TestConfig.ScrapeRequestAccepted | tests/test-all.py:272-285 | the server accepts the test's request iff the resolved query is non-empty, and searches for that query stripped |
| TestConfig.StepBuildLogLabel | tests/test-all.py:541-548 | the label always names the status the server reports for the same log |
| TestConfig.Counters.ExitStatus | tests/test-all.py:829-830 | the exit status is 0 or 1, and 1 iff something failed |
| TestConfig.Counters.Ok | tests/test-all.py:204-207 | counts a pass and leaves the other counters alone |
| TestConfig.Counters.Skip | tests/test-all.py:219-222 | counts a skip and leaves the other counters alone |
| TestConfig.Counters.Fail | tests/test-all.py:210-216 | counts a failure; a fatal one exits at once with status 1; afterwards the final status is 1 |
| ImageGen.AspectInstruction | skills/nano-banana-pro/scripts/image.py:35-42 | one of the three sentences; landscape and portrait get their own, any other aspect gets the square sentence |
| ImageGen.AspectInstructionDistinct | skills/nano-banana-pro/scripts/image.py:37-41 | the three aspects give three different sentences |
| ImageGen.QualityInstruction | skills/nano-banana-pro/scripts/image.py:45-49 | non-empty iff the quality is "draft", and then the draft sentence |
| ImageGen.JoinPrompt | skills/nano-banana-pro/scripts/image.py:67 | stripping the joined prompt keeps the whole aspect sentence at its start |
| ImageGen.JoinPromptOfWords | skills/nano-banana-pro/scripts/image.py:67 | when the ends are not whitespace, stripping removes nothing |
| ImageGen.JoinPromptIgnoresTrailingSpace | skills/nano-banana-pro/scripts/image.py:67 | whitespace at the end of the user's prompt does not change the joined prompt |
| ImageGen.Assemble | skills/nano-banana-pro/scripts/image.py:67-77 | the prompt starts with the aspect sentence and ends with " " plus the note when there is one |
| ImageGen.FullPrompt | skills/nano-banana-pro/scripts/image.py:64-77 | the prompt begins with the aspect sentence and, with a reference image, ends with the reference sentence |
| ImageGen.FullPromptOfPrompt | skills/nano-banana-pro/scripts/image.py:67 | for a prompt that does not end in whitespace, the prompt sent is the sentences and the prompt joined by single spaces |
| ImageGen.ProviderList | skills/nano-banana-pro/scripts/image.py:213-219 | Gemini is tried unless "openrouter" is chosen, OpenRouter unless "gemini" is chosen, and two providers come as Gemini then OpenRouter |
| ImageGen.CallFor | skills/nano-banana-pro/scripts/image.py:222-226 | OpenRouter gets no reference image; Gemini gets the one given |
| ImageGen.GenerateImage | skills/nano-banana-pro/scripts/image.py:221-232 | providers are called in list order, each failing before the next is called; the run stops at the first success; exit status 1 iff every provider failed |
| ImageGen.FindGeminiImage | skills/nano-banana-pro/scripts/image.py:86-96 | the first part without text that carries image data, or None iff there is no such part |
| ImageGen.GenerateWithGemini | skills/nano-banana-pro/scripts/image.py:52-100 | nothing is sent without a key, or when a given reference does not exist; otherwise the full prompt is sent, with the reference flag; success iff the reply has an image part |
| ImageGen.DataUrlPayload | skills/nano-banana-pro/scripts/image.py:156-158 | for a data URL, the text after its first comma; None for another string; an exception for a non-string or a data URL without a comma |
| ImageGen.DataUrlPayloadOf | skills/nano-banana-pro/scripts/image.py:156-158 | a data URL reads back the payload it was built from, including any commas in the payload |
| ImageGen.ImageUrlOf | skills/nano-banana-pro/scripts/image.py:152 | an exception exactly when `image_url` is present but not an object |
| ImageGen.MessageOf | skills/nano-banana-pro/scripts/image.py:145 | raises iff the body is not an object, or it has `choices` that is not a non-empty list with an object first, or that object has a `message` that is not an object; a missing `choices` or `message` gives the empty message, and a present `message` is the result |
| ImageGen.MessageOfEmptyReply | skills/nano-banana-pro/scripts/image.py:145 | an empty body falls back on both defaults and gives the empty message |
| ImageGen.FromImages | skills/nano-banana-pro/scripts/image.py:148-163 | a falsy or string `images` yields nothing; a non-list otherwise raises; otherwise the first element's data URL payload, read from the string or from the `image_url` object, with its exceptions |
| ImageGen.PartStep | skills/nano-banana-pro/scripts/image.py:168-188 | a part that is not an object never decides; an `image_url` part passes exactly when its URL is not a data URL and otherwise gives its payload; another part passes exactly without a truthy inline `data`, and otherwise gives that string |
| ImageGen.ContentOf | skills/nano-banana-pro/scripts/image.py:165-168 | no image unless `content` is a list, which is then walked part by part |
| ImageGen.ContentPick | skills/nano-banana-pro/scripts/image.py:168-188 | an image or a failure is the decision of some content part |
| ImageGen.ContentPickFirstStop | skills/nano-banana-pro/scripts/image.py:168-188 | the first content part that decides wins; no image iff no part decides |
| ImageGen.PickFromContent | skills/nano-banana-pro/scripts/image.py:168-188 | the loop's result is the content selection |
| ImageGen.PickImage | skills/nano-banana-pro/scripts/image.py:143-195 | a malformed reply or an exception in `images` fails; an image from `images` wins; when `images` yields nothing the content walk decides |
| ImageGen.PlainDataUrlImage | skills/nano-banana-pro/scripts/image.py:148-158 | a data URL string first in `images` gives its payload |
| ImageGen.NonDataImageFallsThrough | skills/nano-banana-pro/scripts/image.py:148-163 | a first image whose URL is not a data URL, as a string or an `image_url` object, leaves the choice to `content` |
| ImageGen.StringImagesFallThrough | skills/nano-banana-pro/scripts/image.py:148-156 | an `images` string, whose first element is a one-character string, leaves the choice to `content` |
| ImageGen.InlineDataPartPicked | skills/nano-banana-pro/scripts/image.py:181-188 | a part with inline data holding a non-empty string gives that string |
| ImageGen.ImageUrlPartStep | skills/nano-banana-pro/scripts/image.py:171-179 | an `image_url` part with a non-data URL passes; with a data URL it gives the payload |
| ImageGen.MessageOfReply | skills/nano-banana-pro/scripts/image.py:145 | the message is found at `choices[0].message` |
| ImageGen.ImagesBeforeContent | skills/nano-banana-pro/scripts/image.py:147-163 | a data URL in `message.images` is taken whatever `content` holds |
| ImageGen.ContentWithoutImages | skills/nano-banana-pro/scripts/image.py:165-188 | without images, the first content part that decides gives the result |
| ImageGen.GenerateWithOpenRouter | skills/nano-banana-pro/scripts/image.py:103-199 | with a key, the prompt is sent without the reference sentence; an image iff the status is 200 and the reply selects one, and then its payload |

## Left out

- I/O is not modelled. This covers file reads and writes, `os.makedirs`, image saving and reading the reference image, all HTTP calls, subprocesses, process-group kills, `time.sleep` polling and timeouts. Their outcomes are parameters of the model.
- Playwright scraping (`_do_scrape`), the startup validation and the Playwright site checks of the test are not modelled. These are browser and network operations.
- `test-playwright.py` and `create.sh` are not part of this model.
- The `mode` and `estimated_cost_usd` statistics are not modelled. `mode` uses the Unicode class `\w`, and the cost is a float.
- BuildLog.ParseBuildStats does not apply `.strip()` to a matched value, because a `\S+` or `\d+m\s+\d+s` match can never have whitespace at either end.
- The test's WEBHOOK_URL, BUILD_WAIT, API_TOKEN and SITE_LANG settings are not modelled. Each is a plain `or`/`get` fallback, and BUILD_WAIT also needs its `int()` conversion.
- Non-ASCII digits are not modelled: `\d` is restricted to ASCII.
- Most non-ASCII `lower()` mappings are not modelled. Only the mappings that can change a slug are written out.
- TestConfig.ResolveRemoteSiteUrl does not model `urllib.parse.urlparse`. It returns `DerivedFrom(baseUrl)` instead of the derived `scheme://hostname`.
- ImageGen.GenerateWithOpenRouter does not model base64 decoding. It returns the selected payload undecoded, and an invalid payload, which the source reports as a failure through its exception handler, counts as an image here.
- ImageGen.GenerateWithGemini does not model the reference image failing to open or client exceptions other than a failed request. The reply is either the list of parts or None for an exception.
- ImageGen.Json does not model floating-point JSON numbers: numbers are integers, and only their truthiness matters.
- The side effects of printing inside the content walk are not modelled, nor is the debug text `str(content)[:200]`.
- DotEnv.LoadEnv: a setdefault that raises ends the load with None; the uncaught exception ending the program is not modelled further.
- DotEnv.Environ.LoadDotEnv does not model reading the file. This covers the `os.path.exists` check and splitting the file into lines; the loop takes the lines as input.
- TestConfig.Counters does not model the printed summary.
- BuildLog.TailLogLines: stated only for logs whose last line is not empty. A join cannot show an empty final line, so for such a log the tail splits into one line fewer.
