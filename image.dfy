/** The image generator of the nano-banana-pro skill: the prompt it sends,
    the order in which it tries its two providers, and where it looks for
    the image in a provider's reply. */
module ImageGen {
  import opened Wrappers
  import opened PyStr

  /** Every instruction sentence opens with this word. */
  const GENERATE := "Generate"
  const SQUARE_INSTRUCTION := GENERATE + " a square image (1:1 aspect ratio)."
  const LANDSCAPE_INSTRUCTION := GENERATE + " a landscape/wide image (16:9 aspect ratio)."
  const PORTRAIT_INSTRUCTION := GENERATE + " a portrait/tall image (9:16 aspect ratio)."
  const DRAFT_INSTRUCTION := GENERATE + " a simple, clean image suitable for a draft/mockup. Keep details minimal but visually clear. Lower detail is fine."
  const REFERENCE_INSTRUCTION := "Use the provided image as a reference for style, composition, or content."

  /** The sentence that asks for the aspect ratio; an unknown aspect is
      treated as square. */
  function AspectInstruction(aspect: string): (s: string)
    ensures s == SQUARE_INSTRUCTION || s == LANDSCAPE_INSTRUCTION || s == PORTRAIT_INSTRUCTION
    ensures s == LANDSCAPE_INSTRUCTION <==> aspect == "landscape"
    ensures s == PORTRAIT_INSTRUCTION <==> aspect == "portrait"
    ensures s[0] == 'G' && s[|s| - 1] == '.'
  {
    if aspect == "landscape" then LANDSCAPE_INSTRUCTION
    else if aspect == "portrait" then PORTRAIT_INSTRUCTION
    else SQUARE_INSTRUCTION
  }

  /** The three aspects ask for three different ratios. */
  lemma AspectInstructionDistinct(a: string, b: string)
    requires a in {"square", "landscape", "portrait"} && b in {"square", "landscape", "portrait"}
    requires AspectInstruction(a) == AspectInstruction(b)
    ensures a == b
  {
    assert |SQUARE_INSTRUCTION| != |LANDSCAPE_INSTRUCTION| && |SQUARE_INSTRUCTION| != |PORTRAIT_INSTRUCTION|;
  }

  /** The extra sentence for draft quality; every other quality adds
      nothing. */
  function QualityInstruction(quality: string): (s: string)
    ensures s != "" <==> quality == "draft"
    ensures s == "" || s == DRAFT_INSTRUCTION
  {
    if quality == "draft" then DRAFT_INSTRUCTION else ""
  }

  /** `f"{a} {q} {prompt}".strip()`. */
  function JoinPrompt(a: string, q: string, prompt: string): (p: string)
    ensures a != [] && !IsSpace(a[0]) && !IsSpace(a[|a| - 1]) ==> StartsWith(p, a)
  {
    var rest := " " + q + " " + prompt;
    StripKeepsPrefix(a, rest);
    Strip(a + rest)
  }

  /** Stripping a string that begins with a word keeps the whole word. */
  lemma StripKeepsPrefix(a: string, rest: string)
    ensures a != [] && !IsSpace(a[0]) && !IsSpace(a[|a| - 1]) ==> StartsWith(Strip(a + rest), a)
  {
    if a != [] && !IsSpace(a[0]) && !IsSpace(a[|a| - 1]) {
      var s := a + rest;
      assert s[..|a|] == a;
      assert Trim(s, WHITESPACE) == TrimRight(s, WHITESPACE);
      var r := TrimRight(s, WHITESPACE);
      assert r[..|a|] == s[..|a|];
    }
  }

  /** Joining words that have no whitespace at their outer ends strips
      nothing. */
  lemma JoinPromptOfWords(a: string, q: string, prompt: string)
    requires a != [] && !IsSpace(a[0])
    requires prompt != [] && !IsSpace(prompt[|prompt| - 1])
    ensures JoinPrompt(a, q, prompt) == a + " " + q + " " + prompt
  {
    var joined := a + (" " + q + " " + prompt);
    assert joined[0] == a[0];
    assert joined[|joined| - 1] == prompt[|prompt| - 1];
    TrimOfTrimmed(joined, WHITESPACE);
  }

  /** Whitespace at the end of the user's prompt is stripped away with
      the rest of the join. */
  lemma JoinPromptIgnoresTrailingSpace(a: string, q: string, prompt: string, w: string)
    requires forall k :: 0 <= k < |w| ==> IsSpace(w[k])
    ensures JoinPrompt(a, q, prompt + w) == JoinPrompt(a, q, prompt)
  {
    var joined := a + (" " + q + " " + prompt);
    assert a + (" " + q + " " + (prompt + w)) == "" + joined + w;
    TrimPadding("", joined, w, WHITESPACE);
  }

  /** The prompt sent to a provider: the aspect sentence, the quality
      sentence and the user's prompt joined by single spaces and stripped,
      with the reference sentence appended when a reference image goes
      with it. */
  function FullPrompt(aspect: string, quality: string, prompt: string, withReference: bool): (p: string)
    ensures StartsWith(p, AspectInstruction(aspect))
    ensures withReference ==> (|p| > |REFERENCE_INSTRUCTION|
      && p[|p| - |REFERENCE_INSTRUCTION| - 1..] == " " + REFERENCE_INSTRUCTION)
  {
    var a := AspectInstruction(aspect);
    assert !IsSpace('G') && !IsSpace('.');
    Assemble(a, QualityInstruction(quality), prompt, if withReference then Some(REFERENCE_INSTRUCTION) else None)
  }

  /** The joined prompt, followed by `note` when there is one. */
  function Assemble(a: string, q: string, prompt: string, note: Option<string>): (p: string)
    ensures a != [] && !IsSpace(a[0]) && !IsSpace(a[|a| - 1]) ==> StartsWith(p, a)
    ensures note.Some? ==> |p| > |note.value| && p[|p| - |note.value| - 1..] == " " + note.value
  {
    var base := JoinPrompt(a, q, prompt);
    if note.Some? then
      var p := base + " " + note.value;
      assert p[..|base|] == base;
      p
    else base
  }

  /** For a prompt that does not end in whitespace nothing is stripped:
      the prompt is the two sentences and the user's prompt joined by
      single spaces, so a quality other than draft leaves two spaces
      between the aspect sentence and the user's prompt. */
  lemma FullPromptOfPrompt(aspect: string, quality: string, prompt: string)
    requires prompt != [] && !IsSpace(prompt[|prompt| - 1])
    ensures FullPrompt(aspect, quality, prompt, false)
      == AspectInstruction(aspect) + " " + QualityInstruction(quality) + " " + prompt
    ensures quality != "draft" ==>
      FullPrompt(aspect, quality, prompt, false) == AspectInstruction(aspect) + "  " + prompt
  {
    var a := AspectInstruction(aspect);
    var q := QualityInstruction(quality);
    assert !IsSpace('G');
    JoinPromptOfWords(a, q, prompt);
    if quality != "draft" {
      assert a + " " + q + " " + prompt == a + "  " + prompt;
    }
  }

  // ---------------------------------------------------------------------
  // The provider fallback of generate_image

  datatype Provider = Gemini | OpenRouter

  /** The providers tried for the `--provider` choice, in order: one
      provider when it is named, otherwise Gemini and then OpenRouter. */
  function ProviderList(name: string): (ps: seq<Provider>)
    ensures 1 <= |ps| <= 2
    ensures Gemini in ps <==> name != "openrouter"
    ensures OpenRouter in ps <==> name != "gemini"
    ensures |ps| == 2 ==> ps == [Gemini, OpenRouter]
  {
    if name == "gemini" then [Gemini]
    else if name == "openrouter" then [OpenRouter]
    else [Gemini, OpenRouter]
  }

  /** One attempt: the provider and the reference image handed to it. */
  datatype Call = Call(provider: Provider, reference: Option<string>)

  /** The arguments a provider is called with: OpenRouter never gets the
      reference image. */
  function CallFor(p: Provider, reference: Option<string>): (c: Call)
    ensures c.provider == p
    ensures c.reference == if p == OpenRouter then None else reference
  {
    Call(p, if p == OpenRouter then None else reference)
  }

  /** generate_image: tries the providers in list order and stops at the
      first that succeeds (`succeeds` is each provider's outcome); when all
      fail the run exits with status 1. Returns the attempts made and the
      exit status, 0 meaning a normal return. */
  method GenerateImage(providerName: string, reference: Option<string>, succeeds: Provider -> bool)
    returns (calls: seq<Call>, exitStatus: int)
    ensures var ps := ProviderList(providerName);
      && 1 <= |calls| <= |ps|
      && (forall k :: 0 <= k < |calls| ==> calls[k] == CallFor(ps[k], reference))
      && (forall k :: 0 <= k < |calls| - 1 ==> !succeeds(ps[k]))
    ensures exitStatus == 0 || exitStatus == 1
    ensures exitStatus == 0 <==> succeeds(calls[|calls| - 1].provider)
    ensures exitStatus == 1 <==> forall p :: p in ProviderList(providerName) ==> !succeeds(p)
    ensures exitStatus == 1 ==> |calls| == |ProviderList(providerName)|
  {
    var ps := ProviderList(providerName);
    calls := [];
    var i := 0;
    while i < |ps|
      invariant 0 <= i <= |ps| && |calls| == i
      invariant forall k :: 0 <= k < i ==> calls[k] == CallFor(ps[k], reference) && !succeeds(ps[k])
    {
      var p := ps[i];
      calls := calls + [CallFor(p, reference)];
      if succeeds(p) {
        exitStatus := 0;
        return;
      }
      i := i + 1;
    }
    exitStatus := 1;
  }

  /** An API key counts only when it is set and not empty. */
  predicate HasKey(apiKey: Option<string>) {
    apiKey.Some? && apiKey.value != ""
  }

  // ---------------------------------------------------------------------
  // Gemini

  /** A part of a Gemini reply: its text, if any, and whether it carries
      inline image data. */
  datatype GeminiPart = GeminiPart(text: Option<string>, hasInlineData: bool)

  /** The part the loop saves: one without text that carries image data
      (a part with text is only printed). */
  predicate IsGeminiImage(part: GeminiPart) {
    part.text.None? && part.hasInlineData
  }

  /** The loop over the reply's parts: the index of the part saved as the
      image, which is the first image part, or None when there is none. */
  method FindGeminiImage(parts: seq<GeminiPart>) returns (found: Option<nat>)
    ensures found.None? <==> forall k :: 0 <= k < |parts| ==> !IsGeminiImage(parts[k])
    ensures found.Some? ==> found.value < |parts| && IsGeminiImage(parts[found.value])
    ensures found.Some? ==> forall k :: 0 <= k < found.value ==> !IsGeminiImage(parts[k])
  {
    var i := 0;
    while i < |parts|
      invariant 0 <= i <= |parts|
      invariant forall k :: 0 <= k < i ==> !IsGeminiImage(parts[k])
    {
      if parts[i].text.None? && parts[i].hasInlineData {
        return Some(i);
      }
      i := i + 1;
    }
    return None;
  }

  /** generate_with_gemini. `referenceExists` is whether the reference
      path exists and `reply` the reply's parts, None when the client
      raised. Returns the prompt sent, None when nothing is sent, and
      whether an image was saved. */
  method GenerateWithGemini(apiKey: Option<string>, aspect: string, quality: string, prompt: string,
                            reference: Option<string>, referenceExists: bool,
                            reply: Option<seq<GeminiPart>>)
    returns (sent: Option<string>, saved: bool)
    ensures var withReference := reference.Some? && reference.value != "";
      sent == if !HasKey(apiKey) || (withReference && !referenceExists) then None
              else Some(FullPrompt(aspect, quality, prompt, withReference))
    ensures saved <==> (sent.Some? && reply.Some?
      && exists k :: 0 <= k < |reply.value| && IsGeminiImage(reply.value[k]))
  {
    if !HasKey(apiKey) {
      return None, false;
    }
    var withReference := reference.Some? && reference.value != "";
    if withReference && !referenceExists {
      return None, false;
    }
    sent := Some(FullPrompt(aspect, quality, prompt, withReference));
    if reply.None? {
      return sent, false;
    }
    var found := FindGeminiImage(reply.value);
    saved := found.Some?;
  }

  // ---------------------------------------------------------------------
  // OpenRouter

  /** A decoded JSON value (numbers are integers here). */
  datatype Json =
    | JNull
    | JBool(b: bool)
    | JNum(n: int)
    | JStr(s: string)
    | JArr(items: seq<Json>)
    | JObj(fields: map<string, Json>)

  /** Python truthiness of a decoded JSON value. */
  predicate Truthy(j: Json) {
    match j
    case JNull => false
    case JBool(b) => b
    case JNum(n) => n != 0
    case JStr(s) => s != []
    case JArr(items) => items != []
    case JObj(fields) => fields != map[]
  }

  /** `obj.get(key, default)`. */
  function GetOr(obj: map<string, Json>, key: string, default: Json): Json {
    if key in obj then obj[key] else default
  }

  /** A Python expression's outcome: its value, or an exception. */
  datatype Eval<T> = Value(v: T) | Raised

  /** How the reply ends up: an image payload, no image, or an exception
      (which the function also reports as failure). */
  datatype Pick = Picked(payload: string) | NoImage | Failed

  const COMMA: set<char> := {','}

  /** A `data:` URL whose metadata is `meta`. */
  function DataUrl(meta: string, payload: string): string {
    "data:" + meta + "," + payload
  }

  /** `url.startswith("data:")` and then `url.split(",", 1)[1]`: the text
      after the first comma of a data URL, None for any other string, and
      an exception for a value that is not a string or a data URL without
      a comma. */
  function DataUrlPayload(url: Json): (r: Eval<Option<string>>)
    ensures r == Value(None) <==> url.JStr? && !StartsWith(url.s, "data:")
    ensures r.Value? && r.v.Some? ==> (url.JStr? && StartsWith(url.s, "data:")
      && var n := |url.s| - |r.v.value| - 1;
         0 <= n && url.s[n] == ',' && url.s[n + 1..] == r.v.value
         && forall i :: 0 <= i < n ==> url.s[i] != ',')
    ensures r == Raised <==> !url.JStr? || (StartsWith(url.s, "data:") && ',' !in url.s)
  {
    if !url.JStr? then Raised
    else if !StartsWith(url.s, "data:") then Value(None)
    else
      var i := FirstIn(url.s, COMMA);
      if i == |url.s| then Raised else Value(Some(url.s[i + 1..]))
  }

  /** The payload of a data URL is everything after the first comma;
      later commas stay in it. */
  lemma DataUrlPayloadOf(meta: string, payload: string)
    requires ',' !in meta
    ensures DataUrlPayload(JStr(DataUrl(meta, payload))) == Value(Some(payload))
  {
    var url := DataUrl(meta, payload);
    var n := 5 + |meta|;
    assert url[n] == ',';
    assert forall i :: 0 <= i < n ==> url[i] != ',' by {
      assert forall i :: 0 <= i < 5 ==> url[i] == "data:"[i];
      assert forall i :: 5 <= i < n ==> url[i] == meta[i - 5];
    }
    FirstInAt(url, COMMA, n);
    assert StartsWith(url, "data:") by {
      assert url[..5] == "data:";
    }
    assert url[n + 1..] == payload;
  }

  /** `holder.get("image_url", {}).get("url", "")`. */
  function ImageUrlOf(holder: map<string, Json>): (r: Eval<Json>)
    ensures r == Raised <==> "image_url" in holder && !holder["image_url"].JObj?
  {
    var inner := GetOr(holder, "image_url", JObj(map[]));
    if inner.JObj? then Value(GetOr(inner.fields, "url", JStr(""))) else Raised
  }

  /** `data.get("choices", [{}])[0].get("message", {})`, an exception
      unless each step finds the kind of value the next one needs. */
  function MessageOf(data: Json): (r: Eval<map<string, Json>>)
    ensures r == Raised <==>
      || !data.JObj?
      || ("choices" in data.fields
          && var choices := data.fields["choices"];
             || !choices.JArr? || choices.items == [] || !choices.items[0].JObj?
             || ("message" in choices.items[0].fields && !choices.items[0].fields["message"].JObj?))
    ensures data.JObj? && "choices" !in data.fields ==> r == Value(map[])
    ensures r.Value? && "choices" in data.fields ==>
      var first := data.fields["choices"].items[0].fields;
      && ("message" in first ==> first["message"] == JObj(r.v))
      && ("message" !in first ==> r.v == map[])
  {
    if !data.JObj? then Raised
    else
      var choices := GetOr(data.fields, "choices", JArr([JObj(map[])]));
      if !(choices.JArr? && choices.items != [] && choices.items[0].JObj?) then Raised
      else
        var message := GetOr(choices.items[0].fields, "message", JObj(map[]));
        if message.JObj? then Value(message.fields) else Raised
  }

  /** The `message.images` branch: when `images` is truthy its first
      element, or that element's `image_url.url` when it is an object, is
      read as a data URL. */
  function FromImages(images: Json): (r: Eval<Option<string>>)
    ensures !Truthy(images) ==> r == Value(None)
    ensures images.JArr? && images.items != [] && !images.items[0].JObj? ==>
      r == DataUrlPayload(images.items[0])
    ensures images.JArr? && images.items != [] && images.items[0].JObj? ==>
      (var url := ImageUrlOf(images.items[0].fields);
       (url.Raised? ==> r == Raised) && (url.Value? ==> r == DataUrlPayload(url.v)))
    ensures images.JStr? ==> r == Value(None)
    ensures Truthy(images) && !images.JArr? && !images.JStr? ==> r == Raised
  {
    if !Truthy(images) then Value(None)
    else
      var first: Eval<Json> :=
        match images
        case JArr(items) => Value(items[0])
        case JStr(s) => assert !StartsWith([s[0]], "data:"); Value(JStr([s[0]]))
        case _ => Raised;
      match first
      case Raised => Raised
      case Value(img) =>
        var url := if img.JObj? then ImageUrlOf(img.fields) else Value(img);
        match url
        case Raised => Raised
        case Value(u) => DataUrlPayload(u)
  }

  /** `part.get("type") == "image_url"`. */
  predicate IsImageUrlPart(fields: map<string, Json>) {
    "type" in fields && fields["type"] == JStr("image_url")
  }

  /** What one element of a `content` list decides. */
  datatype Step = Next | Stop(outcome: Pick)

  /** One turn of the content loop: an `image_url` part returns its data
      URL's payload, an `inline_data` part returns its truthy `data`, and
      anything else lets the loop go on; an exception ends the loop. */
  function PartStep(part: Json): (s: Step)
    ensures s.Stop? ==> s.outcome != NoImage
    ensures !part.JObj? ==> s == Next
    ensures part.JObj? && IsImageUrlPart(part.fields) ==>
      ((s == Next <==> ImageUrlOf(part.fields).Value? && DataUrlPayload(ImageUrlOf(part.fields).v) == Value(None))
       && (s.Stop? && s.outcome.Picked? ==>
             ImageUrlOf(part.fields).Value? && DataUrlPayload(ImageUrlOf(part.fields).v) == Value(Some(s.outcome.payload))))
    ensures part.JObj? && !IsImageUrlPart(part.fields) ==>
      ((s == Next <==> "inline_data" !in part.fields
                       || (part.fields["inline_data"].JObj? && !Truthy(GetOr(part.fields["inline_data"].fields, "data", JStr("")))))
       && (s.Stop? && s.outcome.Picked? ==>
             "inline_data" in part.fields && part.fields["inline_data"].JObj?
             && GetOr(part.fields["inline_data"].fields, "data", JStr("")) == JStr(s.outcome.payload)
             && s.outcome.payload != []))
  {
    if !part.JObj? then Next
    else
      var fields := part.fields;
      if IsImageUrlPart(fields) then
        match ImageUrlOf(fields)
        case Raised => Stop(Failed)
        case Value(url) =>
          match DataUrlPayload(url)
          case Raised => Stop(Failed)
          case Value(None) => Next
          case Value(Some(payload)) => Stop(Picked(payload))
      else if "inline_data" in fields then
        var holder := fields["inline_data"];
        if !holder.JObj? then Stop(Failed)
        else
          var data := GetOr(holder.fields, "data", JStr(""));
          if !Truthy(data) then Next
          else if data.JStr? then Stop(Picked(data.s))
          else Stop(Failed)
      else Next
  }

  /** The content loop as a function: the decision of the first part
      that decides, or no image. */
  function ContentPick(parts: seq<Json>): (r: Pick)
    ensures r != NoImage ==> exists k :: 0 <= k < |parts| && PartStep(parts[k]) == Stop(r)
    decreases |parts|
  {
    if parts == [] then NoImage
    else
      match PartStep(parts[0])
      case Next =>
        assert forall k :: 1 <= k < |parts| ==> parts[1..][k - 1] == parts[k];
        ContentPick(parts[1..])
      case Stop(outcome) => outcome
  }

  /** The first part that decides wins; the loop finds no image only when
      no part decides. */
  lemma {:induction false} ContentPickFirstStop(parts: seq<Json>)
    ensures ContentPick(parts) == NoImage <==> forall k :: 0 <= k < |parts| ==> PartStep(parts[k]) == Next
    ensures ContentPick(parts) != NoImage ==> exists k :: (0 <= k < |parts|
      && PartStep(parts[k]) == Stop(ContentPick(parts))
      && forall j :: 0 <= j < k ==> PartStep(parts[j]) == Next)
    decreases |parts|
  {
    if parts != [] {
      ContentPickFirstStop(parts[1..]);
      if PartStep(parts[0]) == Next {
        ContentPickPassesFirst(parts);
      }
    }
  }

  /** The step of ContentPickFirstStop past a part that does not decide. */
  lemma ContentPickPassesFirst(parts: seq<Json>)
    requires parts != [] && PartStep(parts[0]) == Next
    requires var tail := parts[1..];
      ContentPick(tail) == NoImage <==> forall k :: 0 <= k < |tail| ==> PartStep(tail[k]) == Next
    requires var tail := parts[1..];
      ContentPick(tail) != NoImage ==> exists k :: (0 <= k < |tail|
        && PartStep(tail[k]) == Stop(ContentPick(tail))
        && forall j :: 0 <= j < k ==> PartStep(tail[j]) == Next)
    ensures ContentPick(parts) == NoImage <==> forall k :: 0 <= k < |parts| ==> PartStep(parts[k]) == Next
    ensures ContentPick(parts) != NoImage ==> exists k :: (0 <= k < |parts|
      && PartStep(parts[k]) == Stop(ContentPick(parts))
      && forall j :: 0 <= j < k ==> PartStep(parts[j]) == Next)
  {
    var tail := parts[1..];
    assert ContentPick(parts) == ContentPick(tail);
    assert forall k :: 1 <= k < |parts| ==> parts[k] == tail[k - 1];
    assert (forall k :: 0 <= k < |parts| ==> PartStep(parts[k]) == Next)
      <==> (forall k :: 0 <= k < |tail| ==> PartStep(tail[k]) == Next);
    if ContentPick(parts) != NoImage {
      var k :| 0 <= k < |tail| && PartStep(tail[k]) == Stop(ContentPick(tail))
        && forall j :: 0 <= j < k ==> PartStep(tail[j]) == Next;
      assert PartStep(parts[k + 1]) == Stop(ContentPick(parts));
    }
  }

  /** The content loop of generate_with_openrouter. */
  method PickFromContent(parts: seq<Json>) returns (r: Pick)
    ensures r == ContentPick(parts)
  {
    var i := 0;
    while i < |parts|
      invariant 0 <= i <= |parts|
      invariant ContentPick(parts[i..]) == ContentPick(parts)
    {
      var step := PartStep(parts[i]);
      assert parts[i..][1..] == parts[i + 1..];
      if step.Stop? {
        return step.outcome;
      }
      i := i + 1;
    }
    return NoImage;
  }

  /** What the `content` of a message yields when `images` gave nothing:
      the content loop over a list, and no image for anything else. */
  function ContentOf(message: map<string, Json>): (r: Pick)
    ensures "content" !in message || !message["content"].JArr? ==> r == NoImage
    ensures "content" in message && message["content"].JArr? ==> r == ContentPick(message["content"].items)
  {
    var content := GetOr(message, "content", JStr(""));
    if content.JArr? then ContentPick(content.items) else NoImage
  }

  /** Where the reply's image comes from: `message.images` first, and the
      `content` list only when `images` yields no data URL; any exception
      on the way is a failure. */
  function PickImage(data: Json): (r: Pick)
    ensures MessageOf(data).Raised? ==> r == Failed
    ensures MessageOf(data).Value? ==>
      (var fromImages := FromImages(GetOr(MessageOf(data).v, "images", JArr([])));
       && (fromImages.Raised? ==> r == Failed)
       && (fromImages.Value? && fromImages.v.Some? ==> r == Picked(fromImages.v.value))
       && (fromImages == Value(None) ==> r == ContentOf(MessageOf(data).v)))
  {
    match MessageOf(data)
    case Raised => Failed
    case Value(message) =>
      match FromImages(GetOr(message, "images", JArr([])))
      case Raised => Failed
      case Value(Some(payload)) => Picked(payload)
      case Value(None) => ContentOf(message)
  }

  /** A reply wrapping a message in the shape OpenRouter sends. */
  function ReplyOf(message: map<string, Json>): Json {
    JObj(map["choices" := JArr([JObj(map["message" := JObj(message)])])])
  }

  /** An empty reply falls back on both defaults and gives the empty
      message. */
  lemma MessageOfEmptyReply()
    ensures MessageOf(JObj(map[])) == Value(map[])
  {
  }

  /** The message is found where OpenRouter puts it. */
  lemma MessageOfReply(message: map<string, Json>)
    ensures MessageOf(ReplyOf(message)) == Value(message)
  {
  }

  /** A data URL in `message.images` is taken whatever `content` holds. */
  lemma ImagesBeforeContent(data: Json, message: map<string, Json>, meta: string, payload: string, more: seq<Json>)
    requires MessageOf(data) == Value(message)
    requires "images" in message
    requires message["images"] == JArr([JObj(map["image_url" := JObj(map["url" := JStr(DataUrl(meta, payload))])])] + more)
    requires ',' !in meta
    ensures PickImage(data) == Picked(payload)
  {
    DataUrlPayloadOf(meta, payload);
  }

  /** A plain string holding a data URL in `message.images` is taken as
      well. */
  lemma PlainDataUrlImage(data: Json, message: map<string, Json>, meta: string, payload: string, more: seq<Json>)
    requires MessageOf(data) == Value(message)
    requires "images" in message && message["images"] == JArr([JStr(DataUrl(meta, payload))] + more)
    requires ',' !in meta
    ensures PickImage(data) == Picked(payload)
  {
    DataUrlPayloadOf(meta, payload);
  }

  /** A first image that is not a data URL, given as a string or as an
      `image_url` object, is passed over: `content` decides. */
  lemma NonDataImageFallsThrough(data: Json, message: map<string, Json>, url: string, asObject: bool, more: seq<Json>)
    requires MessageOf(data) == Value(message)
    requires !StartsWith(url, "data:")
    requires "images" in message
    requires message["images"] == JArr([if asObject then JObj(map["image_url" := JObj(map["url" := JStr(url)])]) else JStr(url)] + more)
    ensures PickImage(data) == ContentOf(message)
  {
  }

  /** A non-empty string as `message.images` is passed over too: its first
      character is no data URL. */
  lemma StringImagesFallThrough(data: Json, message: map<string, Json>, s: string)
    requires MessageOf(data) == Value(message)
    requires "images" in message && message["images"] == JStr(s)
    ensures PickImage(data) == ContentOf(message)
  {
  }

  /** An `inline_data` part with non-empty string data is the image. */
  lemma InlineDataPartPicked(fields: map<string, Json>, holder: map<string, Json>, payload: string)
    requires !IsImageUrlPart(fields)
    requires "inline_data" in fields && fields["inline_data"] == JObj(holder)
    requires "data" in holder && holder["data"] == JStr(payload) && payload != []
    ensures PartStep(JObj(fields)) == Stop(Picked(payload))
  {
  }

  /** An `image_url` part whose URL is not a data URL lets the loop go on,
      and one whose URL is a data URL is the image. */
  lemma ImageUrlPartStep(fields: map<string, Json>, holder: map<string, Json>, url: string)
    requires IsImageUrlPart(fields)
    requires "image_url" in fields && fields["image_url"] == JObj(holder)
    requires "url" in holder && holder["url"] == JStr(url)
    ensures !StartsWith(url, "data:") ==> PartStep(JObj(fields)) == Next
    ensures forall meta, payload :: ',' !in meta && url == DataUrl(meta, payload) ==> PartStep(JObj(fields)) == Stop(Picked(payload))
  {
    forall meta, payload | ',' !in meta && url == DataUrl(meta, payload)
      ensures PartStep(JObj(fields)) == Stop(Picked(payload))
    {
      DataUrlPayloadOf(meta, payload);
    }
  }

  /** Without images, the first part of `content` that decides gives the
      result. */
  lemma ContentWithoutImages(data: Json, message: map<string, Json>, parts: seq<Json>, k: nat)
    requires MessageOf(data) == Value(message)
    requires "images" !in message || !Truthy(message["images"])
    requires "content" in message && message["content"] == JArr(parts)
    requires k < |parts| && PartStep(parts[k]).Stop?
    requires forall j :: 0 <= j < k ==> PartStep(parts[j]) == Next
    ensures PickImage(data) == PartStep(parts[k]).outcome
  {
    ContentPickFirstStop(parts);
  }

  /** generate_with_openrouter. `reply` is the HTTP status and decoded
      body, None when the request raised. Returns the prompt sent, None
      when nothing is sent, and the base64 payload of the image found. */
  method GenerateWithOpenRouter(apiKey: Option<string>, aspect: string, quality: string, prompt: string,
                                reply: Option<(int, Json)>)
    returns (sent: Option<string>, image: Option<string>)
    ensures sent == if HasKey(apiKey) then Some(FullPrompt(aspect, quality, prompt, false)) else None
    ensures image.Some? <==> (HasKey(apiKey) && reply.Some? && reply.value.0 == 200
      && PickImage(reply.value.1).Picked?)
    ensures image.Some? ==> image.value == PickImage(reply.value.1).payload
  {
    if !HasKey(apiKey) {
      return None, None;
    }
    sent := Some(FullPrompt(aspect, quality, prompt, false));
    if reply.None? || reply.value.0 != 200 {
      return sent, None;
    }
    var data := reply.value.1;
    var message := MessageOf(data);
    if message.Raised? {
      return sent, None;
    }
    var fromImages := FromImages(GetOr(message.v, "images", JArr([])));
    if fromImages.Raised? {
      return sent, None;
    }
    if fromImages.v.Some? {
      return sent, fromImages.v;
    }
    var content := GetOr(message.v, "content", JStr(""));
    var pick := NoImage;
    if content.JArr? {
      pick := PickFromContent(content.items);
    }
    image := if pick.Picked? then Some(pick.payload) else None;
  }
}
