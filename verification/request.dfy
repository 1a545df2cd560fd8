/** The shape of a call to the chat transport, and the option merging every adapter does
    with object spread. */
module Request {
  import opened Js
  import opened Wrappers

  /** `puter.ai.chat(message)` or `puter.ai.chat(message, options)`. */
  datatype ChatCall = ChatCall(message: JVal, options: Option<map<string, JVal>>)

  /** `{...defaults, ...options, ...forced}`: a later source wins on a shared key. */
  function Spread(defaults: map<string, JVal>, options: map<string, JVal>, forced: map<string, JVal>)
    : (r: map<string, JVal>)
    ensures forall k :: k in r <==> k in defaults || k in options || k in forced
    ensures forall k :: k in forced ==> r[k] == forced[k]
    ensures forall k :: k in options && k !in forced ==> r[k] == options[k]
    ensures forall k :: k in defaults && k !in options && k !in forced ==> r[k] == defaults[k]
  {
    defaults + options + forced
  }

  /** `obj[key]` on an options object: `undefined` when absent. */
  function Lookup(m: map<string, JVal>, key: string): JVal {
    if key in m then m[key] else Undefined
  }

  /** The fields every streaming request forces after the caller's options. */
  function Forced(model: JVal, stream: bool): (r: map<string, JVal>)
    ensures "model" in r && r["model"] == model
    ensures stream <==> "stream" in r
    ensures forall k :: k in r ==> k == "model" || k == "stream"
    ensures stream ==> r["stream"] == Bool(true)
  {
    if stream then map["model" := model, "stream" := Bool(true)] else map["model" := model]
  }

  /** `{...defaults, ...options, model, stream: true}` (no `stream` when not streaming):
      the forced fields win, a caller option is kept otherwise, a default fills in only
      what the caller left out, and nothing else is added. */
  function Merge(defaults: map<string, JVal>, options: map<string, JVal>, model: JVal, stream: bool)
    : (r: map<string, JVal>)
    ensures "model" in r && r["model"] == model
    ensures stream ==> "stream" in r && r["stream"] == Bool(true)
    ensures forall k :: k in options && k != "model" && !(stream && k == "stream") ==> k in r && r[k] == options[k]
    ensures forall k :: k in defaults && k !in options && k != "model" && !(stream && k == "stream")
              ==> k in r && r[k] == defaults[k]
    ensures forall k :: k in r ==> k in options || k in defaults || k in {"model", "stream"}
  {
    var forced := Forced(model, stream);
    assert forall k :: k !in forced <==> k != "model" && !(stream && k == "stream");
    Spread(defaults, options, forced)
  }

  /** Streaming changes the merged options in one place only: `stream` becomes `true`. */
  lemma MergeStreamAddsStream(defaults: map<string, JVal>, options: map<string, JVal>, model: JVal)
    ensures Merge(defaults, options, model, true) == Merge(defaults, options, model, false)["stream" := Bool(true)]
  {
    var a, b := Merge(defaults, options, model, true), Merge(defaults, options, model, false)["stream" := Bool(true)];
    assert forall k :: k in a <==> k in b;
    assert forall k :: k in a ==> a[k] == b[k];
  }

  /** `{messages, ...defaults, ...options, model, stream}`: the single-argument form the
      Claude adapters use.  A caller option named `messages` replaces the messages;
      `model` and `stream` cannot be replaced. */
  function Envelope(messages: seq<JVal>, defaults: map<string, JVal>, options: map<string, JVal>,
                    model: string, stream: bool): (r: map<string, JVal>)
    ensures "model" in r && r["model"] == Str(model)
    ensures stream ==> "stream" in r && r["stream"] == Bool(true)
    ensures "messages" in r
    ensures "messages" !in options && "messages" !in defaults ==> r["messages"] == Arr(messages)
    ensures "messages" in options ==> r["messages"] == options["messages"]
    ensures forall k :: k in options && k != "model" && !(stream && k == "stream") ==> k in r && r[k] == options[k]
    ensures forall k :: k in defaults && k !in options && k != "model" && !(stream && k == "stream")
              ==> k in r && r[k] == defaults[k]
    ensures forall k :: k in r ==> k in options || k in defaults || k in {"messages", "model", "stream"}
  {
    map["messages" := Arr(messages)] + Merge(defaults, options, Str(model), stream)
  }

  /** The streaming envelope is the buffered one with `stream: true`. */
  lemma EnvelopeStreamAddsStream(messages: seq<JVal>, defaults: map<string, JVal>, options: map<string, JVal>,
                                 model: string)
    ensures Envelope(messages, defaults, options, model, true)
            == Envelope(messages, defaults, options, model, false)["stream" := Bool(true)]
  {
    MergeStreamAddsStream(defaults, options, Str(model));
    var m := map["messages" := Arr(messages)];
    var a, b := Merge(defaults, options, Str(model), true), Merge(defaults, options, Str(model), false);
    assert m + a == (m + b)["stream" := Bool(true)];
  }
}
