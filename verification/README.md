# Nat chat front end: the reshaping around the chat transport

The application is a browser chat client that forwards every request to one external
chat transport (`puter.ai.chat`) through per-provider adapters. This project models the
deterministic logic around that call:

- the message normaliser `formatMessages`;
- the first-match chains that pull a text chunk out of a reply or stream fragment of
  unknown shape;
- the stream accumulators with their `onChunk(chunk, fullSoFar)` callbacks;
- the model tables and their lookups (Gemini, Llama, Grok);
- the `ModelController` state machine;
- the Codestral prompt builders;
- the pure helpers of `script.js`.

The model is functional throughout:

- **Values.** A JavaScript value is the `Js.JVal` datatype. Optional chaining is
  `Js.Walk`. A non-optional property read on `null`/`undefined` is an explicit `TypeError`.
- **Chains.** A chain `if (a) … else if (b) …` is a list of `Extract.Rule`s decided by
  `Extract.Decide`. Each adapter's `…Order` lemma shows that its list decides exactly as
  the source's `if … else if` reads.
- **Streams.** A stream is the sequence of fragments the transport yields. A streaming
  call returns its result together with the log of callback invocations (`Accumulate`).
- **Controller.** Controller operations take the state and return the new state
  (`ModelController`).
- **Requests.** Every transport request is a `Request.ChatCall` value.

Module layout: `Js`, `Wrappers`, `Text`, `FirstMatch`, `Extract`, `Accumulate`,
`Request`, `Normalise`, `Registry` (shared), then one module per source file. The
source files are `GeminiModels`/`Gemini`, `Claude35`, `Claude3Sonnet`,
`LlamaModels`/`Llama`, `Grok`, `Codestral`, `Passthrough` (the `response.x || response`
and `part?.text || ''` handling that grok.js, llama.js and codestral.js share),
`ModelController` and `Chat` (script.js).

Four facts about the code that a reader might not expect:

- `formatMessages` passes an empty array through unchanged, so its result can be empty
  (`Normalise.NeverEmpty`).
- The claude-3-sonnet buffered reply takes any truthy `content`, not only a string one
  (`Claude3Sonnet.SendOrder`).
- Gemini's `sendMessage` rethrows the whole response object on an error, not an `Error`
  (`Gemini.SendResult`).
- The debug prompt of codestral.js carries the header "Here is the error message:" twice
  when an error message is given: once after the lead and once in the error block
  (`Codestral.DebugError`).

## Model

| member | source | states |
|---|---|---|
| Js.WalkNullish | models/gemini.js:276-286 | optional chaining short-circuits: any non-empty `?.` path from `null` or `undefined` is `undefined` |
| Normalise.FormatMessages | models/gemini.js:104-129 | an array comes back unchanged; an object with truthy `role` and `content` is wrapped alone; a string becomes one user message; anything else becomes one user message whose content is `String(input)`, or `'Hello'` when that text is empty. claude-3.5.js:23-48 and claude-3-sonnet.js:23-48 are the same code |
| Normalise.NeverEmpty | models/gemini.js:104-129 | the normalised list is empty exactly when the caller passed an empty array |
| Normalise.Idempotent | models/gemini.js:106-108 | normalising the normaliser's own output changes nothing |
| Normalise.SingleMessageStable | models/gemini.js:110-128 | the message built for any non-array input other than `''` is recognised as a message when passed in again |
| Normalise.EmptyStringMessageUnstable | models/gemini.js:116-128 | the message built from `''` has falsy content, so passing it in again stringifies it to `"[object Object]"` |
| Normalise.FallbackStringifies | models/gemini.js:123-128 | for `undefined`, `null`, a boolean or an object that is not a message, `String(input)` is non-empty, so the `'Hello'` default is never used and the content is that text |
| Extract.Apply | models/claude-3.5.js:85-116 | a rule that applies and picks a value picks a truthy value or a string |
| Extract.Decide | models/gemini.js:275-286 | a chain picks a truthy value or a string |
| Extract.DecideFirstApplicable | models/gemini.js:275-286 | the decision is that of the first rule that applies: nothing is decided exactly when no rule applies, and a picked value comes from one of the rules |
| Extract.DecideAppend | models/claude-3.5.js:163-188 | a chain split in two decides by its first part when any of those rules applies, by the second part otherwise |
| Extract.DecideSkipsInapplicable | models/claude-3.5.js:163-188 | a rule that does not apply to a fragment can be removed from the chain without changing the decision |
| Extract.BlockTextsAppend | models/claude-3.5.js:87-91 | the text-block scan is compositional: the texts of `a + b` are those of `a` followed by those of `b` |
| FirstMatch.IndexOfFirst | models/gemini.js:153-157 | the position found satisfies the test and no earlier one does; nothing is found exactly when no element satisfies it |
| Accumulate.Fold | models/gemini.js:288-296 | the return value is the in-order concatenation of the truthy chunks; one callback per truthy chunk, the `i`-th seeing the first `i + 1` of them joined |
| Accumulate.Run | models/claude-3.5.js:190-201 | the imperative loop with its running text and callback log ends in exactly the state `Accumulate.Fold` describes |
| Accumulate.ReportsGrow | models/gemini.js:288-292 | every reported running text ends with its chunk and extends the previous one, and the last equals the whole text |
| Accumulate.CallsGrow | models/claude-3-sonnet.js:144-152 | the same three laws stated on the filtering accumulator's own log |
| Accumulate.FoldAppend | models/gemini.js:271-296 | accumulating a stream cut in two gives the text of the first part followed by that of the second, and the first part's log is a prefix of the whole log |
| Accumulate.FoldAll | models/grok.js:300-306 | the unfiltered accumulator appends and reports every chunk, empty ones included |
| Accumulate.FoldAllAgrees | models/grok.js:300-306 | when every chunk is truthy or `''`, reporting all chunks and reporting only the truthy ones build the same text |
| Text.ContainsAt | models/model-controller.js:40-61 | `a.includes(b)` holds exactly when `b` occurs at some position of `a` |
| Text.SplitJoin | script.js:410 | joining the pieces of `split(c)` with `c` gives back the text, and no piece contains `c` |
| Text.JoinSplit | models/codestral.js:318 | joining pieces free of `c` with `c` and splitting again gives back the pieces |
| Text.SplitAcross | script.js:410 | splitting `a + c + b` at `c` is splitting `a`, then splitting `b` |
| Text.SplitBlank | script.js:410-411 | every piece of a blank text is blank |
| Text.ConcatAppend | script.js:413 | `join('')` distributes over appending lists |
| Text.Trim | script.js:271 | the trimmed text is empty exactly when the input is blank; otherwise it is a slice of the input with blank margins and a non-space at each end |
| Registry.Available | models/gemini.js:183-190 | one record per declared model, in declaration order, with the model's id, name and description and the provider |
| Registry.ByKey | models/llama.js:57 | nothing is found exactly when no entry has the key; otherwise the first entry with the key is returned |
| GeminiModels.KeysDistinct | models/gemini.js:17-97 | the twelve keys are pairwise distinct |
| GeminiModels.IdsDistinct | models/gemini.js:17-97 | the twelve ids are pairwise distinct |
| GeminiModels.KeysPlain | models/gemini.js:17-97 | no key contains `/` |
| GeminiModels.IdsQualified | models/gemini.js:17-97 | every id contains `/` |
| Gemini.Resolve | models/gemini.js:136-162 | the search order: an id match (only for input containing `/`), then the exact key, then the first key in order that contains or is contained in the input, then the first entry; the result is always a declared entry |
| Gemini.GetModelInfo | models/gemini.js:136-162 | total: always one of the declared entries |
| Gemini.GetModelId | models/gemini.js:169-177 | input containing `/` comes back verbatim; any other input gives a declared id, that of its resolved entry |
| Gemini.DeclaredResolve | models/gemini.js:138-149 | every declared key resolves to its own entry and its own id; every declared id resolves to the entry declaring it |
| Gemini.ResolveKey | models/gemini.js:146-149 | in any table with distinct keys free of `/`, a key resolves to its own entry |
| Gemini.ResolveId | models/gemini.js:138-144 | in any table with distinct ids all containing `/`, an id resolves to its own entry |
| Gemini.AvailableModels | models/gemini.js:183-190 | one record per declared model, in order, each with provider `Google` |
| Gemini.ChatRequest | models/gemini.js:199-214 | the request carries the normalised messages and the resolved model id; streaming adds `stream: true`; every caller option other than `model` (and `stream` when streaming) is passed as given; a default is sent only for an option the caller left out; no other key is added |
| Gemini.StreamRequestAddsStream | models/gemini.js:256-261 | `streamMessage` sends the messages and options `sendMessage` sends (gemini.js:204-208), plus `stream: true` |
| Gemini.SendOrder | models/gemini.js:225-236 | the send chain as a rule list decides exactly as the source's `if … else if` reads: a nullish response throws, then each place in source order, then a string response |
| Gemini.SendResult | models/gemini.js:218-236 | rule by rule: a response with a truthy `error` is thrown as it is; a nullish one makes the property read throw; then the first truthy of `message.content[0].text`, `message.content`, `content`; then a string response itself; otherwise `String(response \|\| '')` |
| Gemini.StreamOrder | models/gemini.js:275-286 | the stream chain as a rule list decides exactly as the source's `if … else if` reads, place by place in source order |
| Gemini.StreamChunk | models/gemini.js:275-286 | rule by rule: the first truthy of `text`, `delta.text`, `message.content[0].text`, `content`; then a string fragment itself; otherwise the initial `''` |
| Gemini.Stream | models/gemini.js:269-296 | the return value is the concatenation of the truthy chunks in order, and the callback log reports each with its running text |
| Claude35.Body | models/claude-3.5.js:60-72 | the request always has `model: 'claude-3-5-sonnet'` and, when streaming, `stream: true`; the messages are the normalised input unless the caller passes `messages`; every other caller option is passed as given; a default is sent only for an option the caller left out; no other key is added |
| Claude35.StreamBodyAddsStream | models/claude-3.5.js:137-151 | `streamMessage` sends what `sendMessage` sends (claude-3.5.js:60-72), plus `stream: true` |
| Claude35.Failure | models/claude-3.5.js:77-79 | the thrown error's message is `error.message` when truthy, "Error from Claude 3.5 API" otherwise |
| Claude35.SendOrder | models/claude-3.5.js:84-101 | the buffered chain as a rule list decides exactly as the source reads: a nullish reply throws, an array `message.content` commits to its block scan, then each place in source order |
| Claude35.SendResult | models/claude-3.5.js:76-118 | rule by rule: an error-carrying response throws its failure; a nullish one makes the property read throw; an array `message.content` gives the in-order text of its text blocks (a nullish block throws); then a truthy `message.content[0].text`, a non-empty string `content`, a string response; otherwise the raw-data report with the serialisation for an object or array, and `String(response)` for anything else |
| Claude35.StreamOrder | models/claude-3.5.js:160-188 | the stream chain as a rule list decides exactly as the source reads, including the two block scans that commit the chain and the throws on a nullish fragment or block |
| Claude35.BreaksExactly | models/claude-3.5.js:160-181 | a fragment breaks the loop exactly when it is nullish, or when the block array the chain commits to holds a nullish block |
| Claude35.StreamChunk | models/claude-3.5.js:160-188 | for a fragment that does not break the loop, rule by rule: the block text of an array `message.content`, `message.content[0].text`, `delta.text`, the block text of an array `delta.content`, `text`, a non-empty string `content`, a string fragment; otherwise `''` |
| Claude35.Stream | models/claude-3.5.js:153-201 | without a breaking fragment the result is the concatenation of the truthy chunks with one callback each; otherwise `TypeError` escapes after the callbacks of the fragments before the first breaking one |
| Claude3Sonnet.Body | models/claude-3-sonnet.js:60-72 | the request always has `model: 'claude-3-sonnet'` and, when streaming, `stream: true`; the messages are the normalised input unless the caller passes `messages`; every other caller option is passed as given; a default is sent only for an option the caller left out; no other key is added |
| Claude3Sonnet.StreamBodyAddsStream | models/claude-3-sonnet.js:110-124 | `streamMessage` sends what `sendMessage` sends (claude-3-sonnet.js:60-72), plus `stream: true` |
| Claude3Sonnet.Failure | models/claude-3-sonnet.js:77-79 | the thrown error's message is `error.message` when truthy, "Error from Claude 3 Sonnet API" otherwise |
| Claude3Sonnet.SendOrder | models/claude-3-sonnet.js:82-90 | the buffered chain as a rule list decides exactly as the source reads: a nullish reply throws, then each place in source order, then a string reply |
| Claude3Sonnet.SendResult | models/claude-3-sonnet.js:76-91 | rule by rule: an error-carrying response throws its failure; a nullish one makes the property read throw; then a truthy `message.content[0].text`, any truthy `content` (string or not), a string response; otherwise `String(response)` |
| Claude3Sonnet.StreamOrder | models/claude-3-sonnet.js:133-142 | the stream chain as a rule list decides exactly as the source reads, with a top-level `text` first |
| Claude3Sonnet.StreamChunk | models/claude-3-sonnet.js:133-142 | rule by rule: the first truthy of `text`, `message.content[0].text`, `content`; then a string fragment itself; otherwise `''` |
| Claude3Sonnet.Stream | models/claude-3-sonnet.js:126-152 | the return value is the concatenation of the truthy chunks in order, and the callback log reports each with its running text |
| Request.Spread | models/gemini.js:204-208 | object spread: the keys are those of all sources, and a later source wins on a shared key |
| Request.Forced | models/gemini.js:256-261 | the forced fields are `model` and, only when streaming, `stream: true` |
| Request.Merge | models/gemini.js:256-261 | `{...defaults, ...options, model, stream}`: the forced fields win, a caller option is kept otherwise, a default fills in only what the caller left out, and no other key is added |
| Request.MergeStreamAddsStream | models/gemini.js:256-261 | streaming changes the merged options in one place only: `stream` becomes `true` |
| Request.Envelope | models/claude-3.5.js:137-151 | the single-argument request has the given `model`, `stream: true` when streaming, every other caller option as given, a default only for an option the caller left out, the messages unless the caller passes `messages`, and no other key |
| Request.EnvelopeStreamAddsStream | models/claude-3.5.js:137-151 | the streaming envelope is the buffered one plus `stream: true` |
| Passthrough.Reply | models/grok.js:50 | `response.x \|\| response`: the field when truthy, the response otherwise; a nullish response throws |
| Passthrough.PartText | models/llama.js:129 | `part?.text \|\| ''` is a truthy text or `''` |
| Passthrough.ChunkLog | models/llama.js:127-131 | exactly one `onChunk` call per fragment, in order, with `part?.text \|\| ''` |
| Passthrough.LogJoinsTexts | models/llama.js:163-168 | appending every chunk of that log yields the text of the truthy `part.text` fields |
| Grok.ApiModelName | models/grok.js:19-31 | a mapped name gives its API name; any other name comes back unchanged |
| Grok.ApiModelNameIdempotent | models/grok.js:19-31 | mapping an API name again changes nothing |
| Grok.ModelOption | models/grok.js:41 | the requested model is `options.model` when truthy, `grok-3-beta` otherwise |
| Grok.Options | models/grok.js:64-73 | the request model is the API name of the requested model (`x-ai/grok-3-beta` by default); streaming adds `stream: true`; every other caller option is kept, a caller's own `stream` is kept on a buffered call, and no other key is added |
| Grok.SendResult | models/grok.js:49-50 | the reply is a truthy `message.content`, else the response itself; a nullish response throws |
| Grok.AddMessage | models/grok.js:101-106 | one `{role, content}` is appended at the end and nothing else changes; a missing role means `user` |
| Grok.ClearHistory | models/grok.js:119-121 | the history is empty afterwards |
| Grok.AddedInOrder | models/grok.js:101-114 | a history built by `addMessage` holds the added contents in order |
| Grok.Setting | models/grok.js:281-289 | an absent or undefined option takes its default; any other value is kept |
| Grok.DefaultCreativePrompt | models/grok.js:280-298 | with no options the prompt asks for a short, witty sci-fi story about adventure with 2 characters on a space station |
| Grok.CreativePrompt | models/grok.js:280-298 | a template whose settings default only when absent or undefined (`Grok.Setting`); `Grok.DefaultCreativePrompt` gives the default text |
| Grok.Creative | models/grok.js:300-306 | one progress callback per fragment, empty chunks included, each with its running text; the result is the text of the truthy `part.text` fields |
| LlamaModels.KeysDistinct | models/llama.js:17-49 | the four keys are pairwise distinct |
| LlamaModels.KeysPlain | models/llama.js:17-49 | no key contains `/` |
| Llama.KeyOrFirst | models/llama.js:56-58 | a declared key gives its entry, any other key the first entry; always a declared entry |
| Llama.GetModelInfo | models/llama.js:56-58 | total: always one of the declared entries |
| Llama.DeclaredKey | models/llama.js:57 | every declared key resolves to its own entry |
| Llama.FullIdFallsBack | models/llama.js:56-58 | a full id such as `meta-llama/llama-3.3-70b-instruct` is not a key and falls back to `llama-4-maverick` |
| Llama.GetModelId | models/llama.js:65-68 | always one of the four declared ids |
| Llama.AvailableModels | models/llama.js:74-81 | one record per declared model, in order, each with provider `Meta` |
| Llama.Options | models/llama.js:90-123 | the request model is the resolved id; streaming adds `stream: true`; caller options are kept except `model`, and `stream` too on a buffered call; no default parameters or other keys are sent |
| Llama.SendResult | models/llama.js:99-100 | the reply is a truthy `message.content`, else the response itself; a nullish response throws |
| Llama.ModerationRequest | models/llama.js:143-146 | the moderation question quotes the content and goes to `meta-llama/llama-guard-3-8b` |
| Llama.ModerationPrompt | models/llama.js:143-144 | a template; `Llama.ModerationRequest` states where it is sent |
| Llama.Collect | models/llama.js:155-177 | one entry per requested key holding that key's result; the first result that throws ends the loop with that error: every earlier key returned |
| Llama.CompareModels | models/llama.js:155-177 | exactly one entry per requested key; in streaming mode it never throws, given a transport that does not fail, and each value is that model's streamed text; a buffered failure is a `TypeError` |
| Llama.DefaultCompareKeysDeclared | models/llama.js:155 | the keys compared by default are the first three declared models in order, without the moderation model |
| Codestral.Options | models/codestral.js:24-52 | the request model is `codestral-latest`, streaming adds `stream: true`, every other caller option is kept, a caller's own `stream` is kept on a buffered call, and no other key is added |
| Codestral.SendResult | models/codestral.js:31-32 | the reply is a truthy `text`, else the response itself; a nullish response throws |
| Codestral.GenerateLanguage | models/codestral.js:73-76 | a non-empty language only inserts ` in <language>` after `Write code` |
| Codestral.GeneratePrompt | models/codestral.js:73-78 | a template; `Codestral.GenerateLanguage` states how the language enters it |
| Codestral.ExplainLanguage | models/codestral.js:87-93 | a non-empty language only inserts ` <language>` after `Explain this` |
| Codestral.ExplainPrompt | models/codestral.js:87-94 | a template; `Codestral.ExplainLanguage` states how the language enters it |
| Codestral.ReviewItems | models/codestral.js:306-316 | each item is present exactly when its flag is on (absent means on), always in the order bugs, improvements, best practices |
| Codestral.ReviewPrompt | models/codestral.js:306-330 | a template around the numbered points; `Codestral.PointsLines`, `Codestral.NoPoints` and `Codestral.DefaultPoints` state what the points section holds |
| Codestral.Numbered | models/codestral.js:318 | the `i`-th point is `i + 2`, a dot, a space and the `i`-th item |
| Codestral.PointsLines | models/codestral.js:318-323 | the points section read back line by line is the numbered items in order |
| Codestral.NoPoints | models/codestral.js:307-318 | with every flag off the points section is empty |
| Codestral.DefaultItems | models/codestral.js:307-316 | with default options all three items are enabled in the fixed order |
| Codestral.DefaultPoints | models/codestral.js:307-318 | with default options the points are 2, 3 and 4 on consecutive lines |
| Codestral.DebugError | models/codestral.js:336-354 | an error message only inserts the header after the lead and the header-and-message block after the following blank line |
| Codestral.NoErrorPrompt | models/codestral.js:336-344 | without an error message the prompt is the lead, a blank line and the rest |
| Codestral.DebugPrompt | models/codestral.js:336-355 | a template; `Codestral.DebugError` and `Codestral.NoErrorPrompt` state what an error message adds |
| ModelController.SupportsStreaming | models/model-controller.js:13-31 | true exactly when the name is one of the eighteen listed names |
| ModelController.Fresh | models/model-controller.js:9-22 | the constructor: nothing loaded, no active model, streaming off, so the first toggle turns streaming on |
| ModelController.StreamingByWholeName | models/model-controller.js:29-31 | membership is by whole name: `gemini-2.5-pro-exp-03-25:free` is capable, `gemini-2.5-pro` and a dated `gpt-4o` are not |
| ModelController.RouteFor | models/model-controller.js:38-66 | the target of the first route whose pattern the name contains; the default when none matches |
| ModelController.RoutesHaveFiles | models/model-controller.js:40-65 | every route target and the default are module files of the repository |
| ModelController.ModuleFor | models/model-controller.js:38-66 | total: always a repository module, `openai` when no pattern matches |
| ModelController.ClaudeSonnetFallsThrough | models/model-controller.js:63-65 | `claude-3-sonnet` matches no pattern and routes to `openai` |
| ModelController.PixtralFallsThrough | models/model-controller.js:63-65 | `pixtral-large-latest` matches no pattern and routes to `openai` |
| ModelController.ModuleFileInjective | models/model-controller.js:83 | two module names share a file path only when they are equal |
| ModelController.ImportTarget | models/model-controller.js:83 | the corrected path of a repository module is one of the repository's files |
| ModelController.LoadModelModule | models/model-controller.js:73-92 | with the corrected import path (`ImportTarget`; as written, `LoadAsWritten` never imports a module successfully): a truthy cached export is returned without importing and nothing changes; otherwise a successful import is cached under the module name and returned, and a failed one resolves to `null` with the cache unchanged; no other entry changes |
| ModelController.LoadTwice | models/model-controller.js:77-80 | after a load yielding a truthy export, loading again imports nothing and returns the same export |
| ModelController.EveryNameLoads | models/model-controller.js:83-87 | with the corrected path and a loader that finds every module file, any name ends with its module cached and returned |
| ModelController.NestedTarget | models/model-controller.js:83 | the path as written names the module under `models/models/` |
| ModelController.NestedTargetMissing | models/model-controller.js:83 | that nested path is never a repository file |
| ModelController.LoadAsWritten | models/model-controller.js:73-92 | as written, a cache hit returns the cached export, and a missing nested file resolves to `null` |
| ModelController.AsWrittenNeverLoads | models/model-controller.js:83-91 | as written, with a loader that finds only repository files, no load changes the controller, and every cache miss resolves to `null` |
| ModelController.SetActiveModel | models/model-controller.js:99-108 | with the corrected import path of `LoadModelModule` (as written, no import succeeds, so loading adds nothing to the cache): the name becomes active whether or not loading succeeds, the cache is what loading leaves, the streaming flag is kept, and the call resolves to `true` |
| ModelController.LoadIgnoresActive | models/model-controller.js:99-102 | the active model plays no part in loading |
| ModelController.SetActiveTwice | models/model-controller.js:99-108 | activating the same model twice equals activating it once, when the first load yields a truthy export |
| ModelController.ToggleStreaming | models/model-controller.js:114-125 | the flag flips, the new value is returned and is what `isStreamingEnabled` then reads, and nothing else changes |
| ModelController.IsStreamingEnabled | models/model-controller.js:123-125 | reads the flag; `ModelController.ToggleStreaming` states that it reads back the value the toggle returned |
| ModelController.ToggleTwice | models/model-controller.js:114-117 | toggling twice restores the controller |
| Chat.Kept | script.js:411 | only non-blank lines are kept, never more lines than given; a single line is kept exactly when it is not blank |
| Chat.KeptMembers | script.js:411 | a line survives the filter exactly when it occurs in the input and is not blank |
| Chat.KeptAppend | script.js:411 | filtering distributes over appending line lists |
| Chat.Wrap | script.js:412 | each line becomes `<p>line</p>`, unchanged and in order |
| Chat.FormatAcrossNewline | script.js:408-414 | formatting `a` + newline + `b` is formatting `a` followed by formatting `b` |
| Chat.FormatLine | script.js:408-414 | a single line becomes one paragraph holding it untrimmed and unescaped, or nothing when blank |
| Chat.FormatMessageContent | script.js:408-414 | a template: split at newlines, keep the non-blank lines, wrap each in `<p>…</p>` and join; its laws are `Chat.FormatLine`, `Chat.FormatBlank`, `Chat.FormatAcrossNewline` and `Chat.KeptMembers` |
| Chat.FormatBlank | script.js:410-413 | text made only of whitespace formats to the empty string |
| Chat.SaveChatHistory | script.js:737-745 | the new item comes first and the earlier items follow in their order; the length is the old length plus one, capped at 20 |
| Chat.SavedNewestFirst | script.js:737-745 | from an empty history, the history holds the latest twenty items saved, newest first |
| Chat.OcrPreview | script.js:1039-1040 | longer text becomes its first 150 characters and `...` (153 at most); other non-empty text is unchanged; empty text shows the notice |
| Chat.OcrPreviewSeesHead | script.js:1039 | two long texts that agree on their first 150 characters are previewed alike |
| Chat.OcrPreviewNotice | script.js:1039-1040 | the notice is shown exactly for empty text or text that reads like the notice; two different short texts are never previewed alike |
| Chat.ApplyTheme | script.js:1207-1243 | `dark` sets the dark flag and the sun icon, `grey`, `sunrise` and `multicolor` keep the flag, any other name clears it and sets no theme class |
| Chat.ApplyThemeIdempotent | script.js:1218-1239 | applying the same theme again changes nothing |
| Chat.SendToAI | script.js:270-363 | for a transport that does not fail: blank input does nothing; otherwise the trimmed text is sent streaming to the active model, the answer is the in-order text of the truthy `part.text` fields, the reply area is re-rendered after each, and the conversation [user, assistant] is saved first in the history |

## Left out

- The transport `puter.ai.chat` and the other foreign services (`txt2img`, `img2txt`, authentication) are not modelled. A reply is an input value and a stream is an input sequence of fragments.
- DOM updates, event listeners, scrolling, popups, timers and the `create*Interface` helpers are UI glue and are not modelled. `Chat.SendToAI` returns the HTML it would render instead.
- localStorage, `Date` timestamps and `getFormattedTime` are left out. The saved history is the pure list operation, and the history entries carry no times.
- Console logging and the `example()` methods are left out: they have no effect on results.
- The dynamic `import()` is a parameter `importer` from a file path to an optional default export. A rejected import is `None`.
- `JSON.stringify(response, null, 2)` in the claude-3.5 raw-data fallback is a function parameter. Its "Error parsing response" catch is not modelled, because the serialisation never throws in the model.
- Strings are sequences of characters. UTF-16 code units, `substring` on surrogate pairs, and the full character set of JavaScript's `trim` are not modelled. Here only the ASCII blanks, no-break space, the line and paragraph separators and the byte-order mark count as blank; the other Unicode space separators do not.
- Properties inherited from `Object.prototype` (a key such as `toString`) are not modelled: tables are lists of declared entries.
- The `typeof onChunk === 'function'` guards are not modelled: every call is logged, as though a callback is always passed.
- A `null` or non-string model name passed to the controller (where `includes` would throw) is not modelled: names are strings.
- Grok's conversation-manager `sendMessage`/`streamMessage` (models/grok.js:129-175) are not modelled. They call `this.addMessage` on the adapter object, which has no such method, so they do not work as written.
- Grok's `getHistory` copy is not modelled separately: histories are immutable values, so a caller can never change the stored one.
- The thin adapters (claude-3.7, openai, o1-mini, o3-mini, mistral-large, deepseek) and `generateTests` are not modelled. They only forward to the transport.
- Codestral's `reviewCode` and `debugCode` build the same text as `createReviewPrompt` and `createDebugPrompt`. One definition (`ReviewPrompt`, `DebugPrompt`) serves both, so their agreement holds by construction rather than by a lemma.
- The transport never rejects and a stream never fails part-way. The adapters' `catch` blocks that rethrow a rejected `puter.ai.chat` (for example models/llama.js:101-104 and 132-135) and the error branch of `sendMessageToAI` (script.js:363-374, an error bubble and no saved history) are therefore not modelled. `Llama.CompareModels` and `Chat.SendToAI` state their results for such a transport.
- Llama.CompareModels: the transport's reply is modelled as a function of the model id. A key listed twice therefore gets the same reply both times, whereas the source asks twice and keeps the later reply.

## Findings

| source | as written | input that shows it | evidently intended | confidence | as-written member | corrected member |
|---|---|---|---|---|---|---|
| models/model-controller.js:83 | `import(`./models/${moduleName}.js`)` in a file that itself lives in `models/`, so the path resolves to `models/models/<name>.js` | `loadModelModule("gemini-pro")` routes to `gemini` and imports `models/models/gemini.js`, which does not exist, so the load resolves to `null` | import `models/<name>.js` (`./${moduleName}.js`), so that a routed module is found and cached | medium, not executed | ModelController.AsWrittenNeverLoads | ModelController.EveryNameLoads |
