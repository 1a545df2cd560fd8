/** The model table of models/gemini.js and the facts about its literal contents. */
module GeminiModels {
  import opened Registry

  /** The declared models, in declaration order. */
  const Models: seq<Entry> := [
    Entry("gemini-2.5-pro", ModelInfo("google/gemini-2.5-pro-exp-03-25:free", "Gemini 2.5 Pro",
      "Google's most advanced model with multimodal capabilities and enhanced reasoning.", 32768)),
    Entry("gemini-2.0-flash", ModelInfo("google/gemini-2.0-flash-lite-001", "Gemini 2.0 Flash",
      "A fast and efficient model for everyday tasks with good performance.", 16384)),
    Entry("gemini-2.0-flash-001", ModelInfo("google/gemini-2.0-flash-001", "Gemini 2.0 Flash",
      "Alternative version of Gemini 2.0 Flash.", 16384)),
    Entry("gemini-2.0-pro", ModelInfo("google/gemini-2.0-pro-exp-02-05:free", "Gemini 2.0 Pro",
      "Advanced Gemini 2.0 model with strong reasoning and content generation.", 32768)),
    Entry("gemini-2.0-flash-thinking", ModelInfo("google/gemini-2.0-flash-thinking-exp:free", "Gemini 2.0 Flash Thinking",
      "Experimental Gemini 2.0 model optimized for reasoning tasks.", 16384)),
    Entry("gemini-2.0-flash-thinking-1219", ModelInfo("google/gemini-2.0-flash-thinking-exp-1219:free", "Gemini 2.0 Flash Thinking 1219",
      "Experimental Gemini 2.0 thinking model (version 1219).", 16384)),
    Entry("gemini-2.0-flash-exp", ModelInfo("google/gemini-2.0-flash-exp:free", "Gemini 2.0 Flash Experimental",
      "Experimental version of Gemini 2.0 Flash.", 16384)),
    Entry("gemini-1.5-flash-8b", ModelInfo("google/gemini-flash-1.5-8b", "Gemini 1.5 Flash 8B",
      "Efficient 8B parameter version of Gemini 1.5 Flash.", 8192)),
    Entry("gemini-1.5-flash-8b-exp", ModelInfo("google/gemini-flash-1.5-8b-exp", "Gemini 1.5 Flash 8B Experimental",
      "Experimental version of Gemini 1.5 Flash 8B.", 8192)),
    Entry("gemini-1.5-flash", ModelInfo("google/gemini-flash-1.5", "Gemini 1.5 Flash",
      "Fast and efficient Gemini 1.5 model.", 16384)),
    Entry("gemini-1.5-pro", ModelInfo("google/gemini-pro-1.5", "Gemini 1.5 Pro",
      "Full-featured Gemini 1.5 model with strong capabilities.", 32768)),
    Entry("gemini-pro", ModelInfo("google/gemini-pro", "Gemini Pro",
      "Original Gemini Pro model.", 8192))
  ]

  lemma KeysDistinct()
    ensures DistinctKeys(Models)
  {
    KeysDistinctFrom0();
    KeysDistinctFrom4();
    KeysDistinctFrom8();
  }

  lemma KeysDistinctFrom0()
    ensures forall i, j :: 0 <= i < 4 && i < j < |Models| ==> Models[i].key != Models[j].key
  {
  }

  lemma KeysDistinctFrom4()
    ensures forall i, j :: 4 <= i < 8 && i < j < |Models| ==> Models[i].key != Models[j].key
  {
  }

  lemma KeysDistinctFrom8()
    ensures forall i, j :: 8 <= i < 12 && i < j < |Models| ==> Models[i].key != Models[j].key
  {
  }

  lemma IdsDistinct()
    ensures forall i, j :: 0 <= i < j < |Models| ==> Models[i].info.id != Models[j].info.id
  {
    IdsDistinctFrom0();
    IdsDistinctFrom6();
  }

  lemma IdsDistinctFrom0()
    ensures forall i, j :: 0 <= i < 6 && i < j < |Models| ==> Models[i].info.id != Models[j].info.id
  {
  }

  lemma IdsDistinctFrom6()
    ensures forall i, j :: 6 <= i < 12 && i < j < |Models| ==> Models[i].info.id != Models[j].info.id
  {
  }

  /** No key contains '/'. */
  lemma KeysPlain()
    ensures forall i :: 0 <= i < |Models| ==> '/' !in Models[i].key
  {
    KeysPlainFrom0();
    KeysPlainFrom4();
    KeysPlainFrom8();
  }

  lemma KeysPlainFrom0()
    ensures forall i :: 0 <= i < 4 ==> forall j :: 0 <= j < |Models[i].key| ==> Models[i].key[j] != '/'
  {
  }

  lemma KeysPlainFrom4()
    ensures forall i :: 4 <= i < 8 ==> forall j :: 0 <= j < |Models[i].key| ==> Models[i].key[j] != '/'
  {
  }

  lemma KeysPlainFrom8()
    ensures forall i :: 8 <= i < 12 ==> forall j :: 0 <= j < |Models[i].key| ==> Models[i].key[j] != '/'
  {
  }

  /** Every id contains '/': each starts with `google/`. */
  lemma IdsQualified()
    ensures forall i :: 0 <= i < |Models| ==> '/' in Models[i].info.id
  {
    IdsSlashFrom0();
    IdsSlashFrom6();
    forall i | 0 <= i < |Models|
      ensures '/' in Models[i].info.id
    {
      assert Models[i].info.id[6] == '/';
    }
  }

  lemma IdsSlashFrom0()
    ensures forall i :: 0 <= i < 6 ==> |Models[i].info.id| > 6 && Models[i].info.id[6] == '/'
  {
  }

  lemma IdsSlashFrom6()
    ensures forall i :: 6 <= i < 12 ==> |Models[i].info.id| > 6 && Models[i].info.id[6] == '/'
  {
  }
}

/** models/gemini.js: the Gemini model table, its lookups, requests and response handling. */
module Gemini {
  import opened Js
  import opened Text
  import opened Wrappers
  import opened Registry
  import opened GeminiModels
  import opened Extract
  import opened Accumulate
  import opened Request
  import FirstMatch
  import Normalise

  const Provider := "Google"

  const DefaultParams: map<string, JVal> := map["temperature" := Num("0.7"), "top_p" := Num("0.95")]


  /** `a.includes(b) || b.includes(a)` */
  predicate Near(a: string, b: string) {
    Contains(a, b) || Contains(b, a)
  }

  /** The lookup of `getModelInfo` over a table whose first entry is the fallback: an id
      match (tried only for an input containing '/'), then the exact key, then the first
      key in declaration order that contains or is contained in the input, then the first
      entry.  The result is always a declared entry. */
  function Resolve(table: seq<Entry>, key: string): (r: ModelInfo)
    requires |table| > 0
    ensures Declared(table, r)
    ensures forall i :: 0 <= i < |table| && '/' in key && table[i].info.id == key
              && (forall j :: 0 <= j < i ==> table[j].info.id != key)
              ==> r == table[i].info
    ensures forall i :: 0 <= i < |table| && table[i].key == key
              && ('/' !in key || forall j :: 0 <= j < |table| ==> table[j].info.id != key)
              && (forall j :: 0 <= j < i ==> table[j].key != key)
              ==> r == table[i].info
    ensures forall i :: 0 <= i < |table| && Near(key, table[i].key)
              && ('/' !in key || forall j :: 0 <= j < |table| ==> table[j].info.id != key)
              && (forall j :: 0 <= j < |table| ==> table[j].key != key)
              && (forall j :: 0 <= j < i ==> !Near(key, table[j].key))
              ==> r == table[i].info
    ensures ('/' !in key || forall j :: 0 <= j < |table| ==> table[j].info.id != key)
            && (forall j :: 0 <= j < |table| ==> !Near(key, table[j].key))
            ==> r == table[0].info
  {
    var byId := if '/' in key then FirstMatch.IndexOfFirst(table, (e: Entry) => e.info.id == key) else None;
    if byId.Some? then table[byId.value].info
    else
      var byKey := FirstMatch.IndexOfFirst(table, (e: Entry) => e.key == key);
      if byKey.Some? then table[byKey.value].info
      else
        var near := FirstMatch.IndexOfFirst(table, (e: Entry) => Near(key, e.key));
        if near.Some? then table[near.value].info
        else table[0].info
  }

  /** `getModelInfo` on the Gemini table, whose first entry is `gemini-2.5-pro`. */
  function GetModelInfo(key: string): (r: ModelInfo)
    ensures Declared(Models, r)
  {
    Resolve(Models, key)
  }

  /** `getModelId`: an input containing '/' is taken as a full id and returned verbatim;
      any other input resolves to the id of its `getModelInfo` entry, so it is always a
      declared id. */
  function GetModelId(key: string): (r: string)
    ensures '/' in key ==> r == key
    ensures '/' !in key ==> r == GetModelInfo(key).id
    ensures '/' !in key ==> exists i :: 0 <= i < |Models| && r == Models[i].info.id
  {
    if '/' in key then key else GetModelInfo(key).id
  }

  /** Every declared key resolves to its own entry, and every declared id to the entry that
      declares it. */
  lemma DeclaredResolve(i: nat)
    requires i < |Models|
    ensures GetModelInfo(Models[i].key) == Models[i].info
    ensures GetModelId(Models[i].key) == Models[i].info.id
    ensures GetModelInfo(Models[i].info.id) == Models[i].info
  {
    KeysDistinct();
    IdsDistinct();
    KeysPlain();
    IdsQualified();
    ResolveKey(Models, i);
    ResolveId(Models, i);
  }

  /** In a table with distinct keys none of which contains '/', a key resolves to its entry. */
  lemma ResolveKey(table: seq<Entry>, i: nat)
    requires i < |table| && DistinctKeys(table)
    requires forall a :: 0 <= a < |table| ==> '/' !in table[a].key
    ensures Resolve(table, table[i].key) == table[i].info
  {
    assert forall j :: 0 <= j < i ==> table[j].key != table[i].key;
  }

  /** In a table with distinct ids that all contain '/', an id resolves to its entry. */
  lemma ResolveId(table: seq<Entry>, i: nat)
    requires i < |table|
    requires forall a, b :: 0 <= a < b < |table| ==> table[a].info.id != table[b].info.id
    requires forall a :: 0 <= a < |table| ==> '/' in table[a].info.id
    ensures Resolve(table, table[i].info.id) == table[i].info
  {
    assert forall j :: 0 <= j < i ==> table[j].info.id != table[i].info.id;
  }

  /** `getAvailableModels` */
  function AvailableModels(): (r: seq<Listing>)
    ensures |r| == |Models|
    ensures forall i :: 0 <= i < |r| ==> r[i].provider == Provider && r[i].id == Models[i].info.id
  {
    Available(Models, Provider)
  }

  /** The call `sendMessage` (`stream` false) or `streamMessage` (`stream` true) makes:
      the normalised messages, and options built from the defaults, the caller's options,
      and then the resolved model id (and `stream: true`), which the caller cannot
      override. */
  function ChatRequest(message: JVal, key: string, options: map<string, JVal>, stream: bool)
    : (c: ChatCall)
    ensures c.message == Arr(Normalise.FormatMessages(message))
    ensures c.options.Some?
    ensures "model" in c.options.value && c.options.value["model"] == Str(GetModelId(key))
    ensures stream ==> "stream" in c.options.value && c.options.value["stream"] == Bool(true)
    ensures forall k :: k in options && k != "model" && !(stream && k == "stream")
              ==> k in c.options.value && c.options.value[k] == options[k]
    ensures forall k :: k in DefaultParams && k !in options && k != "model" && !(stream && k == "stream")
              ==> k in c.options.value && c.options.value[k] == DefaultParams[k]
    ensures forall k :: k in c.options.value ==> k in options || k in DefaultParams || k in {"model", "stream"}
  {
    ChatCall(Arr(Normalise.FormatMessages(message)), Some(Merge(DefaultParams, options, Str(GetModelId(key)), stream)))
  }

  /** `streamMessage` sends the messages and options `sendMessage` sends, plus `stream: true`. */
  lemma StreamRequestAddsStream(message: JVal, key: string, options: map<string, JVal>)
    ensures ChatRequest(message, key, options, true).message == ChatRequest(message, key, options, false).message
    ensures ChatRequest(message, key, options, true).options.value
            == ChatRequest(message, key, options, false).options.value["stream" := Bool(true)]
  {
    MergeStreamAddsStream(DefaultParams, options, Str(GetModelId(key)));
  }

  /** The buffered extraction chain of `sendMessage`, after the error check. */
  const SendRules: seq<Rule> :=
    [NotNullish, TruthyAt(FirstBlockText), TruthyAt(MessageContent), TruthyAt(Content), SelfString]

  /** The rule list decides as the source's chain reads: a nullish response throws at
      `response.message`, then the first truthy of `message.content[0].text`,
      `message.content` and `content`, then a string response itself. */
  lemma SendOrder(response: JVal)
    ensures Decide(SendRules, response) ==
      if Nullish(response) then Throw
      else if Truthy(Walk(response, FirstBlockText)) then Take(Walk(response, FirstBlockText))
      else if Truthy(Walk(response, MessageContent)) then Take(Walk(response, MessageContent))
      else if Truthy(Walk(response, Content)) then Take(Walk(response, Content))
      else if response.Str? then Take(response)
      else Skip
  {
    Decide5(NotNullish, TruthyAt(FirstBlockText), TruthyAt(MessageContent), TruthyAt(Content), SelfString, response);
    if Nullish(response) { return; }
    if Truthy(Walk(response, FirstBlockText)) { TruthyHit(FirstBlockText, response); return; }
    TruthyMiss(FirstBlockText, response);
    if Truthy(Walk(response, MessageContent)) { TruthyHit(MessageContent, response); return; }
    TruthyMiss(MessageContent, response);
    if Truthy(Walk(response, Content)) { TruthyHit(Content, response); return; }
    TruthyMiss(Content, response);
  }

  /** `sendMessage` on the transport's response: a response carrying a truthy `error` is
      thrown as it is; a nullish one makes `response.message` throw; otherwise the first
      truthy of `message.content[0].text`, `message.content`, `content`, then a string
      response, else `String(response || '')`. */
  function SendResult(response: JVal): (r: Outcome)
    ensures r ==
      if CarriesError(response) then Threw(Raised(response))
      else if Nullish(response) then Threw(TypeError)
      else if Truthy(Walk(response, FirstBlockText)) then Returned(Walk(response, FirstBlockText))
      else if Truthy(Walk(response, MessageContent)) then Returned(Walk(response, MessageContent))
      else if Truthy(Walk(response, Content)) then Returned(Walk(response, Content))
      else if response.Str? then Returned(response)
      else Returned(Str(ToStr(Or(response, Str("")))))
  {
    SendOrder(response);
    if CarriesError(response) then Threw(Raised(response))
    else
      match Decide(SendRules, response)
      case Throw => Threw(TypeError)
      case Take(v) => Returned(v)
      case Skip => Returned(Str(ToStr(Or(response, Str("")))))
  }

  /** The streaming extraction chain: `text`, `delta.text`, `message.content[0].text`,
      `content`, then the fragment itself when it is a string. */
  const StreamRules: seq<Rule> :=
    [TruthyAt(TextField), TruthyAt(DeltaText), TruthyAt(FirstBlockText), TruthyAt(Content), SelfString]

  /** The rule list decides as the source's chain reads: the first truthy of `text`,
      `delta.text`, `message.content[0].text` and `content`, then a string fragment. */
  lemma StreamOrder(part: JVal)
    ensures Decide(StreamRules, part) ==
      if Truthy(Walk(part, TextField)) then Take(Walk(part, TextField))
      else if Truthy(Walk(part, DeltaText)) then Take(Walk(part, DeltaText))
      else if Truthy(Walk(part, FirstBlockText)) then Take(Walk(part, FirstBlockText))
      else if Truthy(Walk(part, Content)) then Take(Walk(part, Content))
      else if part.Str? then Take(part)
      else Skip
  {
    Decide5(TruthyAt(TextField), TruthyAt(DeltaText), TruthyAt(FirstBlockText), TruthyAt(Content), SelfString, part);
    if Truthy(Walk(part, TextField)) { TruthyHit(TextField, part); return; }
    TruthyMiss(TextField, part);
    if Truthy(Walk(part, DeltaText)) { TruthyHit(DeltaText, part); return; }
    TruthyMiss(DeltaText, part);
    if Truthy(Walk(part, FirstBlockText)) { TruthyHit(FirstBlockText, part); return; }
    TruthyMiss(FirstBlockText, part);
    if Truthy(Walk(part, Content)) { TruthyHit(Content, part); return; }
    TruthyMiss(Content, part);
  }

  /** The chunk taken from one fragment: the first truthy of `text`, `delta.text`,
      `message.content[0].text` and `content`, else the fragment when it is a string, else
      the initial `''`. */
  function StreamChunk(part: JVal): (r: JVal)
    ensures r ==
      if Truthy(Walk(part, TextField)) then Walk(part, TextField)
      else if Truthy(Walk(part, DeltaText)) then Walk(part, DeltaText)
      else if Truthy(Walk(part, FirstBlockText)) then Walk(part, FirstBlockText)
      else if Truthy(Walk(part, Content)) then Walk(part, Content)
      else if part.Str? then part
      else Str("")
  {
    StreamOrder(part);
    TakeOr(Decide(StreamRules, part), Str(""))
  }

  /** `streamMessage` over the fragments the transport yields: the return value and the
      `onChunk` log. */
  function Stream(parts: seq<JVal>): (r: Streamed)
    ensures r.full == Joined(Accepted(Chunks(parts, StreamChunk)))
    ensures r.calls == Reports(Accepted(Chunks(parts, StreamChunk)))
  {
    Fold(Chunks(parts, StreamChunk))
  }
}
