/** models/grok.js: the model-name map, the request options, the conversation history and
    the creative-writing prompt with its progress accumulation. */
module Grok {
  import opened Js
  import opened Extract
  import opened Accumulate
  import opened Request
  import opened Passthrough

  /** `modelMap`: UI model names to API model names. */
  const ModelMap: map<string, string> := map["grok-beta" := "grok-beta", "grok-3-beta" := "x-ai/grok-3-beta"]

  const DefaultModel := "grok-3-beta"

  /** `this.modelMap[modelName] || modelName`: the property lookup renders the name with
      `String`, and every mapped name is a non-empty string. */
  function ApiModelName(name: JVal): (r: JVal)
    ensures ToStr(name) in ModelMap ==> r == Str(ModelMap[ToStr(name)])
    ensures ToStr(name) !in ModelMap ==> r == name
  {
    var key := ToStr(name);
    if key in ModelMap then Str(ModelMap[key]) else name
  }

  /** Mapping an API name again changes nothing: every mapped name maps to itself or is
      not a key. */
  lemma ApiModelNameIdempotent(name: JVal)
    ensures ApiModelName(ApiModelName(name)) == ApiModelName(name)
  {
    var key := ToStr(name);
    if key in ModelMap {
      assert ToStr(Str(ModelMap[key])) == ModelMap[key];
      assert key == "grok-beta" || key == "grok-3-beta";
    }
  }

  /** `options.model || 'grok-3-beta'` */
  function ModelOption(options: map<string, JVal>): (r: JVal)
    ensures Truthy(Lookup(options, "model")) ==> r == options["model"]
    ensures !Truthy(Lookup(options, "model")) ==> r == Str(DefaultModel)
  {
    Or(Lookup(options, "model"), Str(DefaultModel))
  }

  /** The options of `sendMessage` (`stream` false) and `streamMessage` (`stream` true): the
      caller's options with `model` replaced by the API name of the requested model. */
  function Options(options: map<string, JVal>, stream: bool): (r: map<string, JVal>)
    ensures "model" in r && r["model"] == ApiModelName(ModelOption(options))
    ensures !Truthy(Lookup(options, "model")) ==> r["model"] == Str("x-ai/grok-3-beta")
    ensures stream ==> "stream" in r && r["stream"] == Bool(true)
    ensures forall k :: k in options && k != "model" && k != "stream" ==> k in r && r[k] == options[k]
    ensures forall k :: k in r ==> k in options || k == "model" || k == "stream"
    ensures !stream ==> ("stream" in r <==> "stream" in options)
    ensures !stream && "stream" in options ==> r["stream"] == options["stream"]
  {
    Spread(map[], options, Forced(ApiModelName(ModelOption(options)), stream))
  }

  /** `sendMessage`: `response.message?.content || response`. */
  function SendResult(response: JVal): (r: Outcome)
    ensures Nullish(response) <==> r == Threw(TypeError)
    ensures !Nullish(response) && Truthy(Walk(response, MessageContent)) ==> r == Returned(Walk(response, MessageContent))
    ensures !Nullish(response) && !Truthy(Walk(response, MessageContent)) ==> r == Returned(response)
  {
    Reply(response, MessageContent)
  }

  /** The conversation manager's history: the messages in the order they were added. */
  type History = seq<JVal>

  /** `addMessage(content, role = 'user')`: one `{role, content}` appended at the end; a
      missing (undefined) role means `'user'`. */
  function AddMessage(h: History, content: JVal, role: JVal): (r: History)
    ensures |r| == |h| + 1 && r[..|h|] == h
    ensures Get(r[|h|], Key("content")) == content
    ensures Get(r[|h|], Key("role")) == if role == Undefined then Str("user") else role
  {
    h + [Obj(map["role" := if role == Undefined then Str("user") else role, "content" := content])]
  }

  /** `clearHistory` */
  function ClearHistory(h: History): (r: History)
    ensures |r| == 0
  {
    []
  }

  /** Histories built only by `addMessage` hold the added contents in order. */
  lemma {:induction false} AddedInOrder(contents: seq<JVal>, roles: seq<JVal>)
    requires |contents| == |roles|
    ensures |Replay(contents, roles)| == |contents|
    ensures forall i :: 0 <= i < |contents| ==> Get(Replay(contents, roles)[i], Key("content")) == contents[i]
    decreases |contents|
  {
    if contents != [] {
      var n := |contents| - 1;
      AddedInOrder(contents[..n], roles[..n]);
      var before := Replay(contents[..n], roles[..n]);
      assert Replay(contents, roles) == AddMessage(before, contents[n], roles[n]);
      forall i | 0 <= i < |contents|
        ensures Get(Replay(contents, roles)[i], Key("content")) == contents[i]
      {
        if i < n {
          assert Replay(contents, roles)[i] == before[i];
        }
      }
    }
  }

  /** The history after `addMessage(contents[i], roles[i])` for each `i`, from empty. */
  function Replay(contents: seq<JVal>, roles: seq<JVal>): History
    requires |contents| == |roles|
    decreases |contents|
  {
    if contents == [] then []
    else
      var n := |contents| - 1;
      AddMessage(Replay(contents[..n], roles[..n]), contents[n], roles[n])
  }

  /** `generateCreativeContent`'s destructuring: an absent or undefined option takes its default. */
  function Setting(options: map<string, JVal>, name: string, default: JVal): (r: JVal)
    ensures Lookup(options, name) == Undefined ==> r == default
    ensures Lookup(options, name) != Undefined ==> r == options[name]
  {
    var v := Lookup(options, name);
    if v == Undefined then default else v
  }

  /** The creative-writing template. */
  function CreativeTemplate(length: string, kind: string, genre: string, theme: string,
                            setting: string, characters: string, tone: string): string
  {
    "\nWrite a " + length + " " + kind + " with the following parameters:\n- Genre: " + genre
    + "\n- Theme: " + theme + "\n- Setting: " + setting + "\n- Characters: " + characters
    + "\n\nMake it " + tone + ", engaging, and memorable. Include some clever dialogue and unexpected twists."
  }

  /** The creative-writing prompt, every parameter rendered with `String`. */
  function CreativePrompt(options: map<string, JVal>): string {
    CreativeTemplate(ToStr(Setting(options, "length", Str("short"))),
                     ToStr(Setting(options, "type", Str("story"))),
                     ToStr(Setting(options, "genre", Str("sci-fi"))),
                     ToStr(Setting(options, "theme", Str("adventure"))),
                     ToStr(Setting(options, "setting", Str("space station"))),
                     ToStr(Setting(options, "characters", Num("2"))),
                     ToStr(Setting(options, "tone", Str("witty"))))
  }

  /** With no options the prompt asks for a short, witty sci-fi story with two characters
      on a space station. */
  lemma DefaultCreativePrompt()
    ensures CreativePrompt(map[])
         == CreativeTemplate("short", "story", "sci-fi", "adventure", "space station", "2", "witty")
  {
    var none: map<string, JVal> := map[];
    assert ToStr(Setting(none, "length", Str("short"))) == "short";
    assert ToStr(Setting(none, "type", Str("story"))) == "story";
    assert ToStr(Setting(none, "genre", Str("sci-fi"))) == "sci-fi";
    assert ToStr(Setting(none, "theme", Str("adventure"))) == "adventure";
    assert ToStr(Setting(none, "setting", Str("space station"))) == "space station";
    assert ToStr(Setting(none, "characters", Num("2"))) == "2";
    assert ToStr(Setting(none, "tone", Str("witty"))) == "witty";
  }

  /** `generateCreativeContent` with `onProgress`, over the fragments of the stream: every
      chunk `part?.text || ''` is appended and reported as `onProgress(chunk, fullSoFar)`,
      empty ones included, and the result is the text of the truthy `part.text` fields. */
  function Creative(parts: seq<JVal>): (r: Streamed)
    ensures |r.calls| == |parts|
    ensures r.calls == Reports(ChunkLog(parts))
    ensures r.full == Joined(Accepted(ChunkLog(parts)))
  {
    LogJoinsTexts(parts);
    FoldAll(ChunkLog(parts))
  }
}
