# Scene generator: proxy and client, modelled in Dafny

The system turns a dialogue transcript, plus an optional character description, into a
list of *scenes*. It does this through a text-generation provider, and the user can then
extend the list. It has two parts, modelled here:

- **The proxy service** (`backend/server.js`). It has two handlers, `POST /api/generate`
  and `POST /api/expand`. Each one validates its JSON body and builds an instruction for
  the provider. It removes a markdown code fence from the provider's reply, parses the
  reply and answers with 200, 400 or 500. This part is modelled as pure functions over
  request and response datatypes (`server.dfy`). The provider and `JSON.parse` are
  function parameters. Each handler also reports which instruction it sent, if any, so
  "no provider call" can be stated as `sent == None`.
- **The client form** (`frontend/App.tsx`). It holds a transcript, a character
  description, the scene list, a loading flag, a status line and an expand count. It is
  modelled as the class `Frontend.App`, with one method per handler (`frontend.dfy`).
  Each handler's single `await` is replaced by a parameter that gives the call's outcome.
  The method returns the request it issued, if any. The derived total duration and the
  expand-count clamp are functions.

`scenes.dfy` holds the data model (`Character`, `Scene`, `SceneList`). `js_text.dfy`
holds the JavaScript string semantics the code depends on:
- the white-space class shared by `\s`, `trim` and `parseInt`;
- `trim`;
- `parseInt` with no radix (sign, `0x` prefix, longest digit run, NaN as `None`);
- the decimal rendering of a number, with a proof that `parseInt` reads it back.

Behaviour of the code worth knowing:

- The expand instruction starts numbering at the id of the **last** existing scene plus
  one (backend/server.js:97, 102), not after the largest id. `Server.LastSceneIdIsNotMax`
  shows an input where the two differ. The contract of `Server.LastSceneId` shows they
  agree when ids increase.
- The server's check is `!transcript` (backend/server.js:58), so it accepts a transcript
  made only of white space. Only the client refuses one, through `trim()`
  (frontend/App.tsx:19).
- A fenced reply and the bare reply it wraps strip to the same text when the body does
  not begin with white space or an opening fence and does not end in "```". They give
  the same call outcome only when, in addition, the body is not empty. With an empty
  body, the bare text is the "Empty response from API" error, while the fenced text is
  handed to the parser as `""`.

## Model

| member | source | states |
|---|---|---|
| Server.StripFences | backend/server.js:52 | the stripped reply is never longer than the reply |
| Server.DropClosing | backend/server.js:52 | the closing alternative removes exactly one "```" when the text ends with it, and otherwise nothing |
| Server.OpeningMatch | backend/server.js:52 | the opening alternative removes "```json" and the longest run of white space after it, and keeps the rest unchanged |
| Server.StripFencesUnchangedIff | backend/server.js:52 | a reply is left unchanged exactly when it neither starts with "```json" nor ends with "```" |
| Server.StripFencesShape | backend/server.js:52 | the result is a contiguous piece of the reply, after at most one opening fence with its white space and before at most one closing fence |
| Server.FencedAndBareStripAlike | backend/server.js:52 | "```json" + white space + body + "```" strips to the body, and so does the bare body, for a body that does not begin with white space or a fence and does not end with "```" |
| Server.TrailingNewlineKeepsFence | backend/server.js:52 | for every reply ending in "```" and a newline, with or without an opening fence, the stripped text still ends in "```" and the newline |
| Server.CallGemini | backend/server.js:40-53 | a provider failure passes its message through; empty text throws "Empty response from API"; a list is returned exactly when the text is non-empty and its stripped form parses, and it is the parsed list; a parse failure passes its message through |
| Server.FencedAndBareReplyAlike | backend/server.js:50-52 | a fenced reply and the bare reply it wraps give the same call outcome |
| Server.ErrorText | backend/server.js:87 | a 500 body is the thrown message, or the fallback when the message is empty, and is never empty |
| Server.Answer | backend/server.js:82-88 | a returned list is answered unchanged with 200; any thrown failure becomes a 500 with its message or the fallback |
| Server.DescriptionOrDefault | backend/server.js:79 | a present, non-empty description is used as is; a missing or empty one becomes "Không có" |
| Server.Generate | backend/server.js:55-89 | 400 "Transcript is required." with no provider call exactly when the transcript is missing or empty; otherwise the instruction carries the transcript and the defaulted description, and the answer is a 200 with the list exactly when the call returned one, else a 500 with the thrown message or "Failed to generate content from AI." |
| Server.GenerateForwardsBlankTranscript | backend/server.js:57-60 | a transcript of white space only passes the check and is sent to the provider |
| Server.GenerateEmptyReplyIsServerError | backend/server.js:51-88 | empty provider text gives a 500 "Empty response from API", never an empty scene list |
| Server.LastSceneId | backend/server.js:97 | 0 for no scenes, otherwise the id of the final scene, which bounds every id when the ids strictly increase |
| Server.LastSceneIdAfterAppend | backend/server.js:97 | after new scenes are appended, the last id is the last new scene's id (unchanged when none were added) |
| Server.LastSceneIdIsNotMax | backend/server.js:97-102 | with ids 5 then 3, the instructed first new id is 4, below an existing id |
| Server.Expand | backend/server.js:91-113 | 400 with no provider call exactly when existingScenes or scenesToAdd is missing; otherwise the instruction carries both and a first new id of LastSceneId + 1, and the answer is a 200 with the list exactly when the call returned one, else a 500 with the thrown message or "Failed to expand script." |
| Server.ExpandAcceptsEmptyAndZero | backend/server.js:94-102 | an empty scene list with scenesToAdd 0 is accepted, and numbering starts at 1 |
| Server.ExpandReturnsParsedReply | backend/server.js:107-108 | the parsed reply is answered as it is, whatever its length or ids |
| Server.ExpandProviderFailure | backend/server.js:109-112 | a provider failure is a 500 with its message, or "Failed to expand script." when that is empty |
| JsText.TrimStartSpec | frontend/App.tsx:19 | trimming the start removes only white space and stops at the first other character |
| JsText.TrimEnd | frontend/App.tsx:19 | trimming the end keeps a prefix, removes only white space, and stops at the last other character |
| JsText.TrimEmptyIff | frontend/App.tsx:19 | a string trims to nothing exactly when it is all white space |
| JsText.ParseIntDecimal | frontend/App.tsx:190 | parseInt reads back the decimal rendering of every natural number, with or without a minus sign |
| Frontend.TotalDuration | frontend/App.tsx:117 | the total of non-negative scene lengths is non-negative |
| Frontend.TotalDurationAppend | frontend/App.tsx:117 | the total of a concatenation is the sum of the totals |
| Frontend.TotalDurationIgnoresMissing | frontend/App.tsx:117 | scenes with no length count as 0 |
| Frontend.ExpandCountFrom | frontend/App.tsx:190 | the count is at least 1; it is either 1 or the parsed value; a parsed value of 1 or more is kept |
| Frontend.ExpandCountOfTypedNumber | frontend/App.tsx:190 | typing a positive number gives that number; typing a negative number gives 1 |
| Frontend.ExpandCountOfNonNumeric | frontend/App.tsx:190 | an empty or digit-free field gives 1 |
| Frontend.App.constructor | frontend/App.tsx:10-15 | the form starts empty, not loading, with the welcome status and an expand count of 1 |
| Frontend.App.Analyze | frontend/App.tsx:18-36 | a blank transcript only sets an error status and issues no request; otherwise the list is replaced by the result, or is empty after a failure, and loading ends false |
| Frontend.App.Expand | frontend/App.tsx:38-56 | with no scenes, only an error status and no request; otherwise the new list is the old list followed by the new scenes (its total duration is the sum), or the old list after a failure, and loading ends false |
| Frontend.App.Clear | frontend/App.tsx:58-63 | transcript, description and scenes are emptied; loading and the expand count are untouched |
| Frontend.App.ExportJson | frontend/App.tsx:82-98 | with no scenes only an error status and nothing exported; otherwise the current list is exported unchanged |
| Frontend.App.SetExpandCount | frontend/App.tsx:190 | the expand count becomes the clamped value of the field, so it stays at least 1 |
| Frontend.AnalyzeRequestAccepted | frontend/App.tsx:19-27 | every generate request the client issues passes the server's check, and an empty description becomes the placeholder |
| Frontend.ExpandRequestAccepted | frontend/App.tsx:39-46 | every expand request the client issues passes the server's check, and asks for ids to continue after the client's last scene |

## Left out

- The provider SDK call, its model name, generation settings and output schema (backend/server.js:18-50). It is foreign code. The provider is a parameter `Prompt -> ProviderReply`. A reply with no text is folded into `Text("")`.
- `JSON.parse` internals. Parsing is a parameter `string -> ParseOutcome`. A reply that parses to JSON other than a scene list is not represented.
- The wording of both instructions. Only the data they embed is modelled: the transcript, the defaulted description, the existing scenes, the count and the first new id.
- Express and cors setup, the fatal exit when the credential is missing (backend/server.js:13-17), `app.listen` and console logging. These are process and I/O plumbing.
- Request fields of unexpected JSON types, such as a numeric transcript or a non-array `existingScenes`. A missing scene id, which would make the first new id NaN, is also not modelled. Fields are typed `Option<string>`, `Option<SceneList>` and `Option<int>`.
- frontend/services/geminiService.ts is not part of this model. It is the `fetch` client that wraps every error as "Failed to communicate with the server: …". The client's `ServiceOutcome` parameter stands for its result. The fallback text for thrown values that are not `Error`s is not modelled.
- frontend/components/SceneCard.tsx is not part of this model. It is rendering, clipboard copy and a timed label reset.
- Rendering, file loading through `FileReader` (frontend/App.tsx:65-80), the Blob download in export (frontend/App.tsx:87-96), the keyboard listener (frontend/App.tsx:100-115) and the text-area change handlers. These are UI and I/O.
- The `toFixed(1)` display of the total (frontend/App.tsx:175). It is floating-point formatting.
- Interleaving of asynchronous handlers. Each handler runs as one atomic step, so its intermediate states are not observable: `loading` is true and the status is "analysing" or "expanding" only while it waits. No single-request-in-flight invariant is claimed. `loading` only disables buttons, and the F5 shortcut calls the analyse handler without checking it.
- Exact status strings. The status line is a tag such as `Analyzed(count)` or `ExpandFailed(message)`.
- Scene-id contiguity and the count of returned scenes. The code never checks them.
- Frontend.ExpandCountFrom: does not model the floating-point precision loss of `parseInt` on very long digit strings, or the `Infinity` it can return. Integers are unbounded here.
- Frontend.TotalDuration: lengths are integers, so a NaN length, which `|| 0` also maps to 0, and floating-point summation are not modelled.
- Frontend.ExpandRequestAccepted: relies on the expand count being a finite integer. In the browser, a number too large for a double makes the count `Infinity`. `JSON.stringify` sends that as `null`, and the server then answers 400 (backend/server.js:94). This case is outside the model, as noted for `Frontend.ExpandCountFrom`.
