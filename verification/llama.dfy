/** The model table of models/llama.js and the facts about its literal contents. */
module LlamaModels {
  import opened Registry

  /** The declared models, in declaration order. */
  const Models: seq<Entry> := [
    Entry("llama-4-maverick", ModelInfo("meta-llama/llama-4-maverick", "Llama 4 Maverick",
      "Meta's advanced Llama 4 Maverick model with strong general-purpose capabilities.", 128000)),
    Entry("llama-3.3-70b", ModelInfo("meta-llama/llama-3.3-70b-instruct", "Llama 3.3 70B",
      "Powerful 70B parameter model for complex tasks requiring deep reasoning.", 32768)),
    Entry("llama-3.1-8b", ModelInfo("meta-llama/llama-3.1-8b-instruct", "Llama 3.1 8B",
      "Efficient 8B parameter model for faster responses to simpler queries.", 8192)),
    Entry("llama-guard", ModelInfo("meta-llama/llama-guard-3-8b", "Llama Guard",
      "Specialized model for content moderation and safety checks.", 8192))
  ]

  lemma KeysDistinct()
    ensures forall i, j :: 0 <= i < j < |Models| ==> Models[i].key != Models[j].key
  {
  }

  /** No key contains '/'. */
  lemma KeysPlain()
    ensures forall i :: 0 <= i < |Models| ==> '/' !in Models[i].key
  {
  }
}

/** models/llama.js: key-or-default lookup, request options, moderation prompt and the
    multi-model comparison. */
module Llama {
  import opened Js
  import opened Wrappers
  import opened Registry
  import opened LlamaModels
  import opened Extract
  import opened Accumulate
  import opened Request
  import opened Passthrough

  const Provider := "Meta"

  /** `table[key] || table[<first key>]`: the declared entry for a key, the first entry
      otherwise. */
  function KeyOrFirst(table: seq<Entry>, key: string): (r: ModelInfo)
    requires |table| > 0
    ensures Declared(table, r)
    ensures forall i :: 0 <= i < |table| && table[i].key == key
              && (forall j :: 0 <= j < i ==> table[j].key != key)
              ==> r == table[i].info
    ensures (forall i :: 0 <= i < |table| ==> table[i].key != key) ==> r == table[0].info
  {
    match ByKey(table, key)
    case Some(info) => info
    case None => table[0].info
  }

  /** `this.models[modelKey] || this.models["llama-4-maverick"]` on the Llama table, whose
      first entry is `llama-4-maverick` (full ids are not keys, so they fall back too). */
  function GetModelInfo(key: string): (r: ModelInfo)
    ensures Declared(Models, r)
  {
    KeyOrFirst(Models, key)
  }

  /** Every declared key resolves to its own entry. */
  lemma DeclaredKey(i: nat)
    requires i < |Models|
    ensures GetModelInfo(Models[i].key) == Models[i].info
  {
    KeysDistinct();
  }

  /** A full model id is not a key and resolves to the default. */
  lemma FullIdFallsBack()
    ensures GetModelInfo("meta-llama/llama-3.3-70b-instruct") == Models[0].info
  {
    var id := "meta-llama/llama-3.3-70b-instruct";
    assert id[10] == '/';
    KeysPlain();
  }

  /** `getModelId`: always one of the declared ids. */
  function GetModelId(key: string): (r: string)
    ensures exists i :: 0 <= i < |Models| && r == Models[i].info.id
  {
    GetModelInfo(key).id
  }

  /** `getAvailableModels` */
  function AvailableModels(): (r: seq<Listing>)
    ensures |r| == |Models|
    ensures forall i :: 0 <= i < |r| ==> r[i].provider == Provider && r[i].id == Models[i].info.id
  {
    Available(Models, Provider)
  }

  /** The options of `sendMessage` (`stream` false) and `streamMessage` (`stream` true): the
      caller's options with the resolved id as `model`; the default parameters are not sent. */
  function Options(key: string, options: map<string, JVal>, stream: bool): (r: map<string, JVal>)
    ensures "model" in r && r["model"] == Str(GetModelId(key))
    ensures stream ==> "stream" in r && r["stream"] == Bool(true)
    ensures forall k :: k in options && k != "model" && k != "stream" ==> k in r && r[k] == options[k]
    ensures forall k :: k in r ==> k in options || k == "model" || k == "stream"
    ensures !stream ==> ("stream" in r <==> "stream" in options)
    ensures !stream && "stream" in options ==> r["stream"] == options["stream"]
  {
    Spread(map[], options, Forced(Str(GetModelId(key)), stream))
  }

  /** `sendMessage`: `response.message?.content || response`. */
  function SendResult(response: JVal): (r: Outcome)
    ensures Nullish(response) <==> r == Threw(TypeError)
    ensures !Nullish(response) && Truthy(Walk(response, MessageContent)) ==> r == Returned(Walk(response, MessageContent))
    ensures !Nullish(response) && !Truthy(Walk(response, MessageContent)) ==> r == Returned(response)
  {
    Reply(response, MessageContent)
  }

  /** `moderateContent(content)`: the question sent, with key `llama-guard`. */
  function ModerationPrompt(content: string): string {
    "Is this message harmful or unsafe: '" + content + "'"
  }

  /** The call `moderateContent` makes: the question, sent to the Llama Guard model. */
  function ModerationRequest(content: string): (c: ChatCall)
    ensures c.message == Str(ModerationPrompt(content))
    ensures c.options.Some? && "model" in c.options.value
    ensures c.options.value["model"] == Str("meta-llama/llama-guard-3-8b")
  {
    assert Models[3].key == "llama-guard";
    DeclaredKey(3);
    ChatCall(Str(ModerationPrompt(content)), Some(Options("llama-guard", map[], false)))
  }

  /** The keys `compareModels` compares when the caller names none. */
  const DefaultCompareKeys: seq<string> := ["llama-4-maverick", "llama-3.3-70b", "llama-3.1-8b"]

  /** The default comparison covers the first three declared models, in declaration order
      (so `DeclaredKey` sends each to its own id); the moderation model is left out. */
  lemma DefaultCompareKeysDeclared()
    ensures DefaultCompareKeys == [Models[0].key, Models[1].key, Models[2].key]
    ensures Models[3].key !in DefaultCompareKeys
  {
    assert |Models[3].key| == 11;
  }

  /** What `compareModels` stores for one key: the streamed text, or the buffered reply. */
  function Compared(key: string, streaming: bool, respond: string -> JVal,
                    streams: string -> seq<JVal>): Outcome
  {
    var id := GetModelId(key);
    if streaming then Returned(Str(Joined(ChunkLog(streams(id)))))
    else SendResult(respond(id))
  }

  /** The loop of `compareModels` for any per-key result: one entry per key, stopping at
      the first result that throws. */
  method Collect(keys: seq<string>, result: string -> Outcome) returns (r: Outcome)
    ensures r.Returned? <==> forall i :: 0 <= i < |keys| ==> result(keys[i]).Returned?
    ensures r.Returned? ==> r.value.Obj?
    ensures r.Returned? ==> forall k :: k in r.value.fields <==> k in keys
    ensures r.Returned? ==> forall k :: k in r.value.fields ==> r.value.fields[k] == result(k).value
    ensures r.Threw? ==>
              exists i :: 0 <= i < |keys| && r == result(keys[i]) && forall j :: 0 <= j < i ==> result(keys[j]).Returned?
  {
    var results: map<string, JVal> := map[];
    var i := 0;
    while i < |keys|
      invariant 0 <= i <= |keys|
      invariant forall j :: 0 <= j < i ==> result(keys[j]).Returned?
      invariant forall k :: k in results <==> k in keys[..i]
      invariant forall k :: k in results ==> results[k] == result(k).value
    {
      var outcome := result(keys[i]);
      if outcome.Threw? {
        return outcome;
      }
      results := results[keys[i] := outcome.value];
      i := i + 1;
    }
    assert keys[..i] == keys;
    r := Returned(Obj(results));
  }

  /** `compareModels(prompt, modelKeys, useStreaming)`: the transport's reply to each model
      is given by `respond` (buffered) or `streams` (streamed), keyed by model id.  The
      result has exactly one entry per requested key; a buffered reply that throws ends the
      comparison with that error. */
  method CompareModels(keys: seq<string>, streaming: bool, respond: string -> JVal,
                       streams: string -> seq<JVal>) returns (r: Outcome)
    ensures r.Returned? <==> forall i :: 0 <= i < |keys| ==> Compared(keys[i], streaming, respond, streams).Returned?
    ensures r.Returned? ==> r.value.Obj? && forall k :: k in r.value.fields <==> k in keys
    ensures r.Returned? ==> forall k :: k in r.value.fields ==>
              r.value.fields[k] == Compared(k, streaming, respond, streams).value
    ensures streaming ==> r.Returned?
    ensures r.Threw? ==> r == Threw(TypeError)
  {
    r := Collect(keys, k => Compared(k, streaming, respond, streams));
  }
}
