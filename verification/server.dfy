/**
 * The proxy service (backend/server.js): two request handlers that validate a JSON
 * body, build an instruction for the text-generation provider, strip a markdown code
 * fence from the provider's reply, parse it and answer with a status and a body.
 *
 * The provider and `JSON.parse` are not modelled: every handler takes them as
 * function parameters, and reports which instruction, if any, it sent.
 */
module Server {
  import opened Scenes
  import opened JsText

  // ---------------------------------------------------------------------------
  // Constants

  const OpeningFence: string := "```json"
  const ClosingFence: string := "```"

  const EmptyResponseMessage: string := "Empty response from API"
  const TranscriptRequiredMessage: string := "Transcript is required."
  const ExpandFieldsRequiredMessage: string := "existingScenes and scenesToAdd are required."
  const GenerateFallbackMessage: string := "Failed to generate content from AI."
  const ExpandFallbackMessage: string := "Failed to expand script."
  /** The placeholder the generate instruction carries when no description is given. */
  const NoDescription: string := "Không có"

  // ---------------------------------------------------------------------------
  // Collaborators and messages

  /** What the provider gives back: its text (empty when it has none) or a thrown error. */
  datatype ProviderReply = Text(text: string) | Fail(message: string)

  /** What `JSON.parse` does with a text: a scene list, or a thrown SyntaxError. */
  datatype ParseOutcome = Parsed(scenes: SceneList) | SyntaxError(message: string)

  /** The instruction sent to the provider, reduced to the data it embeds. */
  datatype Prompt =
    | GeneratePrompt(transcript: string, characterDescription: string)
    | ExpandPrompt(existingScenes: SceneList, scenesToAdd: int, firstNewSceneId: int)

  /** The request bodies; `None` is a field that is absent, null or undefined. */
  datatype GenerateBody = GenerateBody(transcript: Option<string>, characterDescription: Option<string>)
  datatype ExpandBody = ExpandBody(existingScenes: Option<SceneList>, scenesToAdd: Option<int>)

  /** Status 200 with the scene list, 400 or 500 with `{ error }`. */
  datatype Response = Ok(scenes: SceneList) | BadRequest(error: string) | ServerError(error: string)

  /** A handler's answer together with the instruction it sent to the provider, if any. */
  datatype Handled = Handled(response: Response, sent: Option<Prompt>)

  /** The outcome of `callGemini`: the parsed scenes, or the message of what it threw. */
  datatype CallOutcome = Returned(scenes: SceneList) | Threw(message: string)

  function StatusCode(r: Response): int {
    match r
    case Ok(_) => 200
    case BadRequest(_) => 400
    case ServerError(_) => 500
  }

  // ---------------------------------------------------------------------------
  // The fence stripper: text.replace(/^```json\s*|```$/g, '')

  /** A removable opening: "```json" followed only by white space. */
  predicate IsOpening(p: string) {
    StartsWith(p, OpeningFence) && AllWhitespace(p[|OpeningFence|..])
  }

  /** The first alternative, `^```json\s*`: only at the start, with greedy white space. */
  function AfterOpening(text: string): (rest: string)
    ensures |rest| <= |text|
  {
    if StartsWith(text, OpeningFence) then TrimStart(text[|OpeningFence|..]) else text
  }

  /** The second alternative, ```` ```$ ````: only at the very end, with no multiline flag. */
  function DropClosing(rest: string): (r: string)
    ensures |r| <= |rest| && r == rest[..|r|]
    ensures |r| == |rest| || rest[|r|..] == ClosingFence
    ensures |r| < |rest| <==> EndsWith(rest, ClosingFence)
  {
    if EndsWith(rest, ClosingFence) then rest[..|rest| - |ClosingFence|] else rest
  }

  /**
   * `text.replace(/^```json\s*|```$/g, '')`. The two matches of the global pattern
   * never overlap: the opening match ends in letters or white space, never in a
   * backtick, so the closing one is looked for in what the opening one leaves.
   */
  function StripFences(text: string): (r: string)
    ensures |r| <= |text|
  {
    DropClosing(AfterOpening(text))
  }

  /** The stripper changes a text exactly when it opens with "```json" or ends with "```". */
  lemma StripFencesUnchangedIff(text: string)
    ensures StripFences(text) == text <==> !StartsWith(text, OpeningFence) && !EndsWith(text, ClosingFence)
  {
  }

  /**
   * `r` is `text` with its first `k` characters, an opening fence and its white space,
   * and then either nothing or one closing fence removed.
   */
  predicate RemovesFencesAt(text: string, r: string, k: int) {
    0 <= k <= |text| - |r| && text[k..k + |r|] == r &&
    (k == 0 || IsOpening(text[..k])) &&
    (k + |r| == |text| || text[k + |r|..] == ClosingFence)
  }

  /** The opening match: "```json" and the longest run of white space after it. */
  lemma OpeningMatch(text: string)
    requires StartsWith(text, OpeningFence)
    ensures var k := |text| - |TrimStart(text[|OpeningFence|..])|;
      |OpeningFence| <= k <= |text| && IsOpening(text[..k]) && text[k..] == TrimStart(text[|OpeningFence|..])
  {
    var n := |OpeningFence|;
    var after := text[n..];
    var rest := TrimStart(after);
    TrimStartSpec(after);
    var m := |after| - |rest|;
    var k := n + m;
    var opening := text[..k];
    assert AllWhitespace(after[..m]);
    assert opening[n..] == after[..m] by {
      forall i | 0 <= i < m
        ensures opening[n..][i] == after[..m][i]
      {
        assert opening[n..][i] == text[n + i];
      }
    }
    assert opening[..n] == text[..n];
    assert text[k..] == after[m..];
  }

  /**
   * The result is a contiguous piece of the input, preceded by nothing or by one
   * opening fence with its white space, and followed by nothing or by one "```".
   */
  lemma StripFencesShape(text: string)
    ensures exists k :: RemovesFencesAt(text, StripFences(text), k)
  {
    var rest := AfterOpening(text);
    var r := DropClosing(rest);
    var k := |text| - |rest|;
    if StartsWith(text, OpeningFence) {
      OpeningMatch(text);
    }
    assert text[k..k + |r|] == r by {
      assert text[k..k + |r|] == rest[..|r|];
    }
    assert k + |r| == |text| || text[k + |r|..] == ClosingFence by {
      if k + |r| != |text| {
        assert text[k + |r|..] == rest[|r|..];
      }
    }
    assert StripFences(text) == r;
    assert RemovesFencesAt(text, r, k);
  }

  lemma {:induction false} TrimStartAfterWhitespace(ws: string, x: string)
    requires AllWhitespace(ws)
    requires x != [] && !IsJsWhitespace(x[0])
    ensures TrimStart(ws + x) == x
  {
    if ws != [] {
      assert (ws + x)[1..] == ws[1..] + x;
      TrimStartAfterWhitespace(ws[1..], x);
    }
  }

  /**
   * A body wrapped as "```json" + white space + body + "```" strips to the same text as
   * the bare body, as long as the body does not itself begin with white space or an
   * opening fence, nor end with a closing one.
   */
  lemma FencedAndBareStripAlike(ws: string, body: string)
    requires AllWhitespace(ws)
    requires body == [] || !IsJsWhitespace(body[0])
    requires !StartsWith(body, OpeningFence) && !EndsWith(body, ClosingFence)
    ensures StripFences(OpeningFence + ws + body + ClosingFence) == body
    ensures StripFences(body) == body
  {
    var wrapped := OpeningFence + ws + body + ClosingFence;
    assert wrapped[..|OpeningFence|] == OpeningFence;
    assert wrapped[|OpeningFence|..] == ws + (body + ClosingFence);
    TrimStartAfterWhitespace(ws, body + ClosingFence);
    var rest := body + ClosingFence;
    assert rest[|rest| - |ClosingFence|..] == ClosingFence;
    assert rest[..|rest| - |ClosingFence|] == body;
    StripFencesUnchangedIff(body);
  }

  /**
   * A closing fence followed by a newline is left in place, whether or not the
   * reply opens with a fence, so it reaches the parser.
   */
  lemma TrailingNewlineKeepsFence(text: string)
    ensures EndsWith(StripFences(text + "```\n"), "```\n")
  {
    var t := text + "```\n";
    var n := |t|;
    assert t[n - 4..] == "```\n";
    var rest := AfterOpening(t);
    var k := n - |rest|;
    if StartsWith(t, OpeningFence) {
      OpeningMatch(t);
      assert n - 4 >= |OpeningFence| by {
        assert t[..|OpeningFence|] == OpeningFence;
        assert t[n - 4] == '`' && t[n - 1] == '\n';
      }
      assert forall i :: |OpeningFence| <= i < k ==> IsJsWhitespace(t[i]) by {
        forall i | |OpeningFence| <= i < k
          ensures IsJsWhitespace(t[i])
        {
          assert t[..k][|OpeningFence|..][i - |OpeningFence|] == t[i];
        }
      }
      assert k <= n - 4;
    }
    assert rest == t[k..];
    assert rest[|rest| - 4..] == "```\n";
    assert rest[|rest| - 1] == '\n';
    assert DropClosing(rest) == rest;
  }

  // ---------------------------------------------------------------------------
  // callGemini

  /**
   * Empty provider text throws "Empty response from API"; otherwise the stripped
   * text is parsed and the parse result is returned as it is.
   */
  function CallGemini(reply: ProviderReply, parse: string -> ParseOutcome): (r: CallOutcome)
    ensures reply == Text([]) ==> r == Threw(EmptyResponseMessage)
    ensures reply.Fail? ==> r == Threw(reply.message)
    ensures r.Returned? <==> reply.Text? && reply.text != [] && parse(StripFences(reply.text)).Parsed?
    ensures r.Returned? ==> parse(StripFences(reply.text)) == Parsed(r.scenes)
    ensures reply.Text? && reply.text != [] && parse(StripFences(reply.text)).SyntaxError? ==>
      r == Threw(parse(StripFences(reply.text)).message)
  {
    match reply
    case Fail(message) => Threw(message)
    case Text(text) =>
      if text == [] then Threw(EmptyResponseMessage)
      else
        match parse(StripFences(text))
        case Parsed(scenes) => Returned(scenes)
        case SyntaxError(message) => Threw(message)
  }

  /** A fenced reply and the bare reply it wraps yield the same call outcome. */
  lemma FencedAndBareReplyAlike(ws: string, body: string, parse: string -> ParseOutcome)
    requires AllWhitespace(ws)
    requires body != [] && !IsJsWhitespace(body[0])
    requires !StartsWith(body, OpeningFence) && !EndsWith(body, ClosingFence)
    ensures CallGemini(Text(OpeningFence + ws + body + ClosingFence), parse) == CallGemini(Text(body), parse)
  {
    FencedAndBareStripAlike(ws, body);
  }

  /** The body of a 500: the thrown message, or the endpoint's fallback when it is empty. */
  function ErrorText(message: string, fallback: string): (e: string)
    requires fallback != []
    ensures e != []
    ensures e == message || e == fallback
    ensures message != [] ==> e == message
  {
    if message != [] then message else fallback
  }

  /** Any thrown failure becomes a 500; a returned result is sent unchanged with 200. */
  function Answer(outcome: CallOutcome, fallback: string): (r: Response)
    requires fallback != []
    ensures r.Ok? || r.ServerError?
    ensures r.Ok? <==> outcome.Returned?
    ensures r.Ok? ==> r.scenes == outcome.scenes
    ensures r.ServerError? ==> r.error == ErrorText(outcome.message, fallback)
  {
    match outcome
    case Returned(scenes) => Ok(scenes)
    case Threw(message) => ServerError(ErrorText(message, fallback))
  }

  // ---------------------------------------------------------------------------
  // POST /api/generate

  /** `!transcript` is false: the transcript is present and not the empty string. */
  predicate HasTranscript(body: GenerateBody) {
    body.transcript.Some? && body.transcript.value != []
  }

  /** `characterDescription || 'Không có'`. */
  function DescriptionOrDefault(description: Option<string>): (d: string)
    ensures d != []
    ensures description.Some? && description.value != [] ==> d == description.value
    ensures description.None? || description.value == [] ==> d == NoDescription
  {
    match description
    case Some(text) => if text != [] then text else NoDescription
    case None => NoDescription
  }

  function Generate(body: GenerateBody, provider: Prompt -> ProviderReply, parse: string -> ParseOutcome): (h: Handled)
    ensures h.response.BadRequest? <==> !HasTranscript(body)
    ensures h.response.BadRequest? ==> h.response.error == TranscriptRequiredMessage && h.sent == None
    ensures HasTranscript(body) ==>
      h.sent == Some(GeneratePrompt(body.transcript.value, DescriptionOrDefault(body.characterDescription)))
    ensures HasTranscript(body) ==>
      h.response == Answer(CallGemini(provider(h.sent.value), parse), GenerateFallbackMessage)
    ensures h.response.Ok? ==> CallGemini(provider(h.sent.value), parse) == Returned(h.response.scenes)
    ensures h.response.ServerError? ==> h.response.error != []
  {
    if !HasTranscript(body) then
      Handled(BadRequest(TranscriptRequiredMessage), None)
    else
      var prompt := GeneratePrompt(body.transcript.value, DescriptionOrDefault(body.characterDescription));
      Handled(Answer(CallGemini(provider(prompt), parse), GenerateFallbackMessage), Some(prompt))
  }

  /** A transcript of white space only passes the server's check and is sent on. */
  lemma GenerateForwardsBlankTranscript(ws: string, provider: Prompt -> ProviderReply, parse: string -> ParseOutcome)
    requires ws != [] && AllWhitespace(ws)
    ensures Generate(GenerateBody(Some(ws), None), provider, parse).sent == Some(GeneratePrompt(ws, NoDescription))
  {
  }

  /** Empty provider text surfaces as a 500 with its own message, never as an empty list. */
  lemma GenerateEmptyReplyIsServerError(body: GenerateBody, provider: Prompt -> ProviderReply, parse: string -> ParseOutcome)
    requires HasTranscript(body)
    requires forall p :: provider(p) == Text([])
    ensures Generate(body, provider, parse).response == ServerError(EmptyResponseMessage)
    ensures StatusCode(Generate(body, provider, parse).response) == 500
  {
  }

  // ---------------------------------------------------------------------------
  // POST /api/expand

  /**
   * The id of the last scene; 0 for no scenes. It is the largest id only when the
   * ids increase.
   */
  function LastSceneId(existing: SceneList): (id: int)
    ensures existing == [] ==> id == 0
    ensures existing != [] ==> id == existing[|existing| - 1].sceneId
    ensures (forall i, j :: 0 <= i < j < |existing| ==> existing[i].sceneId < existing[j].sceneId) ==>
      forall i :: 0 <= i < |existing| ==> existing[i].sceneId <= id
  {
    if |existing| > 0 then existing[|existing| - 1].sceneId else 0
  }

  /** After the client appends new scenes, numbering continues from the last new one. */
  lemma LastSceneIdAfterAppend(existing: SceneList, added: SceneList)
    ensures LastSceneId(existing + added) == if added == [] then LastSceneId(existing) else LastSceneId(added)
  {
  }

  /** Otherwise it need not be: out-of-order ids make the continuation reuse an id. */
  lemma LastSceneIdIsNotMax(a: Scene, b: Scene)
    requires a.sceneId == 5 && b.sceneId == 3
    ensures LastSceneId([a, b]) + 1 == 4 < a.sceneId
  {
  }

  predicate HasExpandFields(body: ExpandBody) {
    body.existingScenes.Some? && body.scenesToAdd.Some?
  }

  function Expand(body: ExpandBody, provider: Prompt -> ProviderReply, parse: string -> ParseOutcome): (h: Handled)
    ensures h.response.BadRequest? <==> !HasExpandFields(body)
    ensures h.response.BadRequest? ==> h.response.error == ExpandFieldsRequiredMessage && h.sent == None
    ensures HasExpandFields(body) ==>
      h.sent == Some(ExpandPrompt(body.existingScenes.value, body.scenesToAdd.value,
                                  LastSceneId(body.existingScenes.value) + 1))
    ensures HasExpandFields(body) ==>
      h.response == Answer(CallGemini(provider(h.sent.value), parse), ExpandFallbackMessage)
    ensures h.response.Ok? ==> CallGemini(provider(h.sent.value), parse) == Returned(h.response.scenes)
    ensures h.response.ServerError? ==> h.response.error != []
  {
    if !HasExpandFields(body) then
      Handled(BadRequest(ExpandFieldsRequiredMessage), None)
    else
      var existing := body.existingScenes.value;
      var prompt := ExpandPrompt(existing, body.scenesToAdd.value, LastSceneId(existing) + 1);
      Handled(Answer(CallGemini(provider(prompt), parse), ExpandFallbackMessage), Some(prompt))
  }

  /** An empty scene list and a count of zero are accepted; numbering then starts at 1. */
  lemma ExpandAcceptsEmptyAndZero(provider: Prompt -> ProviderReply, parse: string -> ParseOutcome)
    ensures Expand(ExpandBody(Some([]), Some(0)), provider, parse).sent == Some(ExpandPrompt([], 0, 1))
  {
  }

  /**
   * On success the parsed reply is answered as it is: whatever its length or ids,
   * with no re-sorting and no check against the requested count.
   */
  lemma ExpandReturnsParsedReply(body: ExpandBody, provider: Prompt -> ProviderReply,
                                 parse: string -> ParseOutcome, text: string, scenes: SceneList)
    requires HasExpandFields(body)
    requires text != [] && forall p :: provider(p) == Text(text)
    requires parse(StripFences(text)) == Parsed(scenes)
    ensures Expand(body, provider, parse).response == Ok(scenes)
  {
  }

  /** A provider failure is a 500 carrying its message, or the fallback when that is empty. */
  lemma ExpandProviderFailure(body: ExpandBody, provider: Prompt -> ProviderReply,
                              parse: string -> ParseOutcome, message: string)
    requires HasExpandFields(body)
    requires forall p :: provider(p) == Fail(message)
    ensures Expand(body, provider, parse).response ==
      ServerError(if message == [] then ExpandFallbackMessage else message)
  {
  }
}
