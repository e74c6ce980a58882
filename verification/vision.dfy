/**
 * The product-photo analysis: the request sent to the vision model (one
 * or two images, a prompt that names today's date and the answer
 * language) and the extraction of the JSON object from the model's reply.
 * The model call and `JSON.parse` are parameters.
 */
module Vision {
  import opened Wrappers
  import opened Text
  import opened Translations

  /** A base64-encoded image and its media type. */
  datatype Image = Image(base64: string, mimeType: string)

  /**
   * The fields of the model's answer that the handlers read. `None` is a
   * missing or `null` field; `confidence` is never read and not modelled.
   */
  datatype Analysis = Analysis(
    name: Option<string>,
    description: Option<string>,
    expirationDate: Option<string>,
    category: Option<string>)

  /** Which of the two prompt texts is sent. */
  datatype Prompt = FrontOnlyPrompt | FrontAndDatePrompt

  /** The one user message sent to the model. */
  datatype Request = Request(
    model: string,
    maxTokens: nat,
    images: seq<Image>,
    prompt: Prompt,
    today: string,
    languageInstruction: string)

  const VisionModel: string := "claude-haiku-4-5"
  const MaxTokens: nat := 1024
  const DanishInstruction: string := "IMPORTANT: Write the name and description in Danish."
  const EnglishInstruction: string := "Write the name and description in English."

  /** The sentence telling the model which language to answer in. */
  function LanguageInstruction(lang: Lang): (r: string)
    ensures r == DanishInstruction <==> lang == Da
    ensures r == EnglishInstruction <==> lang == En
  {
    assert |DanishInstruction| != |EnglishInstruction|;
    match lang
    case Da => DanishInstruction
    case En => EnglishInstruction
  }

  /**
   * The request for a front image and an optional expiration-date image:
   * the front image first, the date image second when there is one, and
   * the two-image prompt exactly when there is one.
   */
  function BuildRequest(front: Image, expiration: Option<Image>, lang: Lang, today: string): (r: Request)
    ensures |r.images| == (if expiration.Some? then 2 else 1)
    ensures r.images[0] == front
    ensures expiration.Some? ==> r.images[1] == expiration.value
    ensures r.prompt == FrontAndDatePrompt <==> expiration.Some?
    ensures r.languageInstruction == DanishInstruction <==> lang == Da
    ensures r.today == today && r.model == VisionModel && r.maxTokens == MaxTokens
  {
    var images := [front] + (match expiration case Some(e) => [e] case None => []);
    Request(VisionModel, MaxTokens, images,
      if expiration.Some? then FrontAndDatePrompt else FrontOnlyPrompt,
      today, LanguageInstruction(lang))
  }

  /** One content block of the model's reply. */
  datatype Block = TextBlock(text: string) | OtherBlock

  /** Why an analysis failed: the API call threw, the reply had no text, or the text was not JSON. */
  datatype Failure = ApiFailure(message: string) | NoTextResponse | ParseFailure

  /** The message of the error the analysis throws. */
  function FailureMessage(f: Failure): string {
    match f
    case ApiFailure(m) => m
    case NoTextResponse => "No text response from AI"
    case ParseFailure => "Failed to parse AI response as JSON"
  }

  /** The text of the first text block of the reply. */
  function FirstText(blocks: seq<Block>): (r: Option<string>)
    ensures r.None? <==> forall k :: 0 <= k < |blocks| ==> !blocks[k].TextBlock?
    ensures r.Some? ==> exists i :: 0 <= i < |blocks| && blocks[i] == TextBlock(r.value)
                                 && (forall k :: 0 <= k < i ==> !blocks[k].TextBlock?)
  {
    if |blocks| == 0 then None
    else if blocks[0].TextBlock? then Some(blocks[0].text)
    else
      var r := FirstText(blocks[1..]);
      assert forall k :: 0 < k < |blocks| ==> blocks[k] == blocks[1..][k - 1];
      r
  }

  const Fence: string := "```"
  const JsonTag: string := "json"

  /**
   * The markdown code block the reply may wrap its JSON in: the trimmed text
   * between the first fence (and an optional `json` tag after it) and the
   * next fence, or nothing when the text has no two fences.
   */
  function FencedContent(t: string): (r: Option<string>)
    ensures r.Some? ==> Trim(r.value) == r.value
    ensures r.None? <==> (FindFrom(t, Fence, 0).None? || FindFrom(t, Fence, FindFrom(t, Fence, 0).value + |Fence|).None?)
  {
    match FindFrom(t, Fence, 0)
    case None => None
    case Some(p) =>
      var j := if OccursAt(t, JsonTag, p + |Fence|) then p + |Fence| + |JsonTag| else p + |Fence|;
      match FindFrom(t, Fence, j)
      case None =>
        NoFenceAfterTag(t, p + |Fence|, j);
        None
      case Some(q) =>
        var c := Trim(t[j..q]);
        TrimOfTrimmed(c);
        Some(c)
  }

  /** With no fence from `j` on, and only the `json` tag (or nothing) between `k` and `j`, there is none from `k` on. */
  lemma NoFenceAfterTag(t: string, k: nat, j: nat)
    requires j == k || (j == k + |JsonTag| && OccursAt(t, JsonTag, k))
    requires FindFrom(t, Fence, j).None?
    ensures FindFrom(t, Fence, k).None?
  {
    forall i | k <= i
      ensures !OccursAt(t, Fence, i)
    {
      if i < j {
        assert t[i] == JsonTag[i - k];
        NotOccursAtChar(t, Fence, i);
      }
    }
    NoneWhenAbsent(t, Fence, k);
  }

  /**
   * The span from the first `{` to the last `}` after it, or nothing when
   * there is no such pair.
   */
  function BraceSpan(t: string): (r: Option<string>)
    ensures r.Some? ==> |r.value| >= 2 && r.value[0] == '{' && r.value[|r.value| - 1] == '}'
    ensures r.Some? ==> exists a :: OccursAt(t, r.value, a)
    ensures r.None? <==> ('{' !in t || '}' !in t[IndexOf(t, '{').value + 1..])
  {
    match IndexOf(t, '{')
    case None => None
    case Some(a) =>
      match LastIndexOf(t, '}')
      case None => None
      case Some(b) =>
        if a < b then
          assert OccursAt(t, t[a..b + 1], a);
          Some(t[a..b + 1])
        else
          assert t[a + 1..] == t[b + 1..][a - b..];
          None
  }

  /** `startsWith("{")`. */
  predicate OpensObject(s: string) {
    |s| > 0 && s[0] == '{'
  }

  /**
   * The text handed to `JSON.parse`: the trimmed reply, unwrapped from its
   * code block when it has one, and cut down to its brace span when it then
   * does not start with `{`.
   */
  function ExtractJson(reply: string): string {
    var t := Trim(reply);
    var u := match FencedContent(t) case Some(c) => c case None => t;
    if OpensObject(u) then u
    else match BraceSpan(u) case Some(s) => s case None => u
  }

  /** The outcome of interpreting the reply's blocks with the JSON parser `parse`. */
  function Interpret(blocks: seq<Block>, parse: string -> Option<Analysis>): (r: Result<Analysis, Failure>)
    ensures r == Err(NoTextResponse) <==> FirstText(blocks).None?
    ensures r.Ok? <==> FirstText(blocks).Some? && parse(ExtractJson(FirstText(blocks).value)).Some?
    ensures r.Ok? ==> Some(r.value) == parse(ExtractJson(FirstText(blocks).value))
  {
    match FirstText(blocks)
    case None => Err(NoTextResponse)
    case Some(text) =>
      match parse(ExtractJson(text))
      case None => Err(ParseFailure)
      case Some(a) => Ok(a)
  }

  /**
   * `analyzeImages`: the request is answered by `call` (the model API;
   * `Err` is a thrown error) and the reply is interpreted by `parse`.
   */
  function AnalyzeImages(
    front: Image, expiration: Option<Image>, lang: Lang, today: string,
    call: Request -> Result<seq<Block>, string>, parse: string -> Option<Analysis>): (r: Result<Analysis, Failure>)
    ensures call(BuildRequest(front, expiration, lang, today)).Err? ==>
      r == Err(ApiFailure(call(BuildRequest(front, expiration, lang, today)).error))
    ensures call(BuildRequest(front, expiration, lang, today)).Ok? ==>
      r == Interpret(call(BuildRequest(front, expiration, lang, today)).value, parse)
  {
    match call(BuildRequest(front, expiration, lang, today))
    case Err(m) => Err(ApiFailure(m))
    case Ok(blocks) => Interpret(blocks, parse)
  }

  /** `analyzeImage`, the single-image entry point kept for older callers. */
  function AnalyzeImage(
    base64: string, mimeType: string, lang: Lang, today: string,
    call: Request -> Result<seq<Block>, string>, parse: string -> Option<Analysis>): (r: Result<Analysis, Failure>)
    ensures r == AnalyzeImages(Image(base64, mimeType), None, lang, today, call, parse)
  {
    AnalyzeImages(Image(base64, mimeType), None, lang, today, call, parse)
  }

  /** The single-image entry point sends exactly one image, with the one-image prompt. */
  lemma AnalyzeImageSendsOneImage(base64: string, mimeType: string, lang: Lang, today: string)
    ensures BuildRequest(Image(base64, mimeType), None, lang, today).images == [Image(base64, mimeType)]
    ensures BuildRequest(Image(base64, mimeType), None, lang, today).prompt == FrontOnlyPrompt
  {
  }

  /** A reply that is already a bare, trimmed JSON object with no fence is parsed as it is. */
  lemma BareJsonUnchanged(reply: string)
    requires OpensObject(reply) && !IsSpace(reply[|reply| - 1])
    requires '`' !in reply
    ensures ExtractJson(reply) == reply
  {
    TrimOfTrimmed(reply);
    NoFence(reply);
  }

  /** Text without a backquote has no code block. */
  lemma NoFence(t: string)
    requires '`' !in t
    ensures FencedContent(t).None?
  {
    forall i | 0 <= i < |t| ensures !OccursAt(t, Fence, i) {
      NotOccursAtChar(t, Fence, i);
    }
  }

  /** `c` on a line of its own. */
  function OnOwnLine(c: string): string {
    "\n" + c + "\n"
  }

  /** A non-empty text with no surrounding whitespace, on a line of its own, trims back to itself. */
  lemma TrimNewlineFramed(c: string)
    requires |c| > 0 && !IsSpace(c[0]) && !IsSpace(c[|c| - 1])
    ensures Trim(OnOwnLine(c)) == c
  {
    var s := OnOwnLine(c);
    assert s[1..] == c + "\n";
    assert TrimStart(s) == c + "\n";
    assert (c + "\n")[..|c|] == c;
    assert TrimEnd(c + "\n") == c;
  }

  /** The reply the prompt asks for, wrapped in a `json` code block with prose before and after. */
  function FencedReply(pre: string, c: string, post: string): string {
    pre + Fence + (JsonTag + OnOwnLine(c)) + Fence + post
  }

  /**
   * A JSON object wrapped in a `json` code block is unwrapped exactly,
   * whatever prose surrounds the block, provided the prose before it holds
   * no backquote.
   */
  lemma FencedJsonUnwrapped(pre: string, c: string, post: string)
    requires '`' !in pre && '`' !in c
    requires OpensObject(c) && !IsSpace(c[|c| - 1])
    requires pre == [] || !IsSpace(pre[0])
    requires post == [] || !IsSpace(post[|post| - 1])
    ensures ExtractJson(FencedReply(pre, c, post)) == c
  {
    var t := FencedReply(pre, c, post);
    FencedReplyEnds(pre, c, post);
    TrimOfTrimmed(t);
    FencePositions(pre, c, post);
    TrimNewlineFramed(c);
    ExtractFromFenced(t, c);
  }

  /** When the trimmed reply has a code block whose content starts with `{`, that content is parsed. */
  lemma ExtractFromFenced(reply: string, c: string)
    requires FencedContent(Trim(reply)) == Some(c) && OpensObject(c)
    ensures ExtractJson(reply) == c
  {
  }

  /** A fenced reply has no surrounding whitespace when its prose has none. */
  lemma FencedReplyEnds(pre: string, c: string, post: string)
    requires pre == [] || !IsSpace(pre[0])
    requires post == [] || !IsSpace(post[|post| - 1])
    ensures var t := FencedReply(pre, c, post); |t| > 0 && !IsSpace(t[0]) && !IsSpace(t[|t| - 1])
  {
    var t := FencedReply(pre, c, post);
    var m := JsonTag + OnOwnLine(c);
    assert t == pre + Fence + m + Fence + post;
    if pre == [] {
      assert t[0] == Fence[0];
    } else {
      assert t[0] == pre[0];
    }
    if post == [] {
      assert t[|t| - 1] == Fence[2];
    } else {
      assert t[|t| - 1] == post[|post| - 1];
    }
  }

  /** Where the fences of a fenced reply are, and what lies between them. */
  lemma FencePositions(pre: string, c: string, post: string)
    requires '`' !in pre && '`' !in c
    ensures FencedContent(FencedReply(pre, c, post)) == Some(Trim(OnOwnLine(c)))
  {
    var t := FencedReply(pre, c, post);
    var n := OnOwnLine(c);
    var j := |pre| + 7;
    var q := j + |n|;
    assert t[..|pre|] == pre;
    assert t[|pre|..|pre| + 3] == Fence;
    assert t[|pre| + 3..j] == JsonTag;
    assert t[j..q] == n;
    assert t[q..q + 3] == Fence;
    assert '`' !in n;
    FindAfterGap(t, Fence, 0, |pre|);
    FindAfterGap(t, Fence, j, q);
  }

  /** `mid` between braces. */
  function Braced(mid: string): string {
    "{" + mid + "}"
  }

  /** A JSON object `{mid}` with prose before and after it. */
  function EmbeddedReply(pre: string, mid: string, post: string): string {
    pre + (Braced(mid)) + post
  }

  /**
   * A JSON object with prose around it and no code block is cut out from
   * its first `{` to its last `}`, provided the prose before it holds no
   * `{` and the prose after it no `}`.
   */
  lemma EmbeddedJsonCutOut(pre: string, mid: string, post: string)
    requires |pre| > 0 && !IsSpace(pre[0])
    requires post == [] || !IsSpace(post[|post| - 1])
    requires '{' !in pre && '}' !in post
    requires '`' !in EmbeddedReply(pre, mid, post)
    ensures ExtractJson(EmbeddedReply(pre, mid, post)) == Braced(mid)
  {
    var t := EmbeddedReply(pre, mid, post);
    assert t[0] == pre[0];
    assert t[|t| - 1] == if post == [] then '}' else post[|post| - 1];
    TrimOfTrimmed(t);
    NoFence(t);
    EmbeddedNotOpening(pre, mid, post);
    EmbeddedBraceSpan(pre, mid, post);
    ExtractFromUnfenced(t, Braced(mid));
  }

  /** A reply whose prose before the object holds no `{` does not open with one. */
  lemma EmbeddedNotOpening(pre: string, mid: string, post: string)
    requires |pre| > 0 && '{' !in pre
    ensures !OpensObject(EmbeddedReply(pre, mid, post))
  {
    assert EmbeddedReply(pre, mid, post)[0] == pre[0];
  }

  /** The brace span of an embedded object is the object. */
  lemma EmbeddedBraceSpan(pre: string, mid: string, post: string)
    requires '{' !in pre && '}' !in post
    ensures BraceSpan(EmbeddedReply(pre, mid, post)) == Some(Braced(mid))
  {
    var obj := Braced(mid);
    var t := EmbeddedReply(pre, mid, post);
    IndexOfPrefix(pre, obj + post, '{');
    assert pre + (obj + post) == t;
    LastIndexOfSuffix(pre + obj, post, '}');
    assert (pre + obj) + post == t;
    assert t[|pre|..|pre| + |obj|] == obj;
  }

  /** A trimmed reply without a code block that does not start with `{` is cut down to its brace span. */
  lemma ExtractFromUnfenced(reply: string, span: string)
    requires FencedContent(Trim(reply)).None? && !OpensObject(Trim(reply))
    requires BraceSpan(Trim(reply)) == Some(span)
    ensures ExtractJson(reply) == span
  {
  }
}
