/** models/claude-3-sonnet.js: the request body, the buffered reply chain and the stream
    loop, in which a top-level `text` wins over every other field. */
module Claude3Sonnet {
  import opened Js
  import opened Extract
  import opened Accumulate
  import opened Request
  import Normalise

  const Model := "claude-3-sonnet"

  const DefaultParams: map<string, JVal> := map["temperature" := Num("0.7"), "top_p" := Num("0.9")]

  /** The single argument the transport receives, built from the defaults, the caller's
      options, the model name and, when streaming, `stream: true`. */
  function Body(message: JVal, options: map<string, JVal>, stream: bool): (r: map<string, JVal>)
    ensures "model" in r && r["model"] == Str(Model)
    ensures stream ==> "stream" in r && r["stream"] == Bool(true)
    ensures "messages" in r
    ensures "messages" !in options ==> r["messages"] == Arr(Normalise.FormatMessages(message))
    ensures "messages" in options ==> r["messages"] == options["messages"]
    ensures forall k :: k in options && k != "model" && !(stream && k == "stream") ==> k in r && r[k] == options[k]
    ensures forall k :: k in DefaultParams && k !in options && k != "model" && !(stream && k == "stream")
              ==> k in r && r[k] == DefaultParams[k]
    ensures forall k :: k in r ==> k in options || k in DefaultParams || k in {"messages", "model", "stream"}
  {
    Envelope(Normalise.FormatMessages(message), DefaultParams, options, Model, stream)
  }

  /** `streamMessage` sends what `sendMessage` sends, plus `stream: true`. */
  lemma StreamBodyAddsStream(message: JVal, options: map<string, JVal>)
    ensures Body(message, options, true) == Body(message, options, false)["stream" := Bool(true)]
  {
    EnvelopeStreamAddsStream(Normalise.FormatMessages(message), DefaultParams, options, Model);
  }

  /** `new Error(response.error.message || "Error from Claude 3 Sonnet API")` */
  function Failure(response: JVal): (e: Thrown)
    ensures e.ErrorWith?
    ensures Truthy(Walk(response, ErrorMessage)) ==> e.message == ToStr(Walk(response, ErrorMessage))
    ensures !Truthy(Walk(response, ErrorMessage)) ==> e.message == "Error from Claude 3 Sonnet API"
  {
    ErrorWith(ToStr(Or(Walk(response, ErrorMessage), Str("Error from Claude 3 Sonnet API"))))
  }

  /** The buffered chain after the error check: `message.content[0].text`, any truthy
      `content`, a string reply. */
  const SendRules: seq<Rule> := [NotNullish, TruthyAt(FirstBlockText), TruthyAt(Content), SelfString]

  /** The buffered chain, rule by rule: a nullish reply throws on `response.message`;
      then `message.content[0].text`, any truthy `content`, a string reply. */
  lemma SendOrder(response: JVal)
    ensures Decide(SendRules, response) ==
      if Nullish(response) then Throw
      else if Truthy(Walk(response, FirstBlockText)) then Take(Walk(response, FirstBlockText))
      else if Truthy(Walk(response, Content)) then Take(Walk(response, Content))
      else if response.Str? then Take(response)
      else Skip
  {
    Decide4(NotNullish, TruthyAt(FirstBlockText), TruthyAt(Content), SelfString, response);
    if Nullish(response) { return; }
    if Truthy(Walk(response, FirstBlockText)) { TruthyHit(FirstBlockText, response); return; }
    TruthyMiss(FirstBlockText, response);
    if Truthy(Walk(response, Content)) { TruthyHit(Content, response); return; }
    TruthyMiss(Content, response);
  }

  /** `sendMessage` on the transport's response; any truthy `content` is the reply, string
      or not, and a reply no rule matches is rendered with `String(response)`. */
  function SendResult(response: JVal): (r: Outcome)
    ensures r ==
      if CarriesError(response) then Threw(Failure(response))
      else if Nullish(response) then Threw(TypeError)
      else if Truthy(Walk(response, FirstBlockText)) then Returned(Walk(response, FirstBlockText))
      else if Truthy(Walk(response, Content)) then Returned(Walk(response, Content))
      else if response.Str? then Returned(response)
      else Returned(Str(ToStr(response)))
  {
    SendOrder(response);
    if CarriesError(response) then Threw(Failure(response))
    else
      match Decide(SendRules, response)
      case Throw => Threw(TypeError)
      case Take(v) => Returned(v)
      case Skip => Returned(Str(ToStr(response)))
  }

  /** The streaming chain: `text`, `message.content[0].text`, `content`, a string fragment.
      Every access is optional, so no fragment breaks the loop. */
  const StreamRules: seq<Rule> := [TruthyAt(TextField), TruthyAt(FirstBlockText), TruthyAt(Content), SelfString]

  /** The streaming chain, rule by rule: a truthy top-level `text` wins over every other
      field, then `message.content[0].text`, any truthy `content`, a string fragment. */
  lemma StreamOrder(part: JVal)
    ensures Decide(StreamRules, part) ==
      if Truthy(Walk(part, TextField)) then Take(Walk(part, TextField))
      else if Truthy(Walk(part, FirstBlockText)) then Take(Walk(part, FirstBlockText))
      else if Truthy(Walk(part, Content)) then Take(Walk(part, Content))
      else if part.Str? then Take(part)
      else Skip
  {
    Decide4(TruthyAt(TextField), TruthyAt(FirstBlockText), TruthyAt(Content), SelfString, part);
    if Truthy(Walk(part, TextField)) { TruthyHit(TextField, part); return; }
    TruthyMiss(TextField, part);
    if Truthy(Walk(part, FirstBlockText)) { TruthyHit(FirstBlockText, part); return; }
    TruthyMiss(FirstBlockText, part);
    if Truthy(Walk(part, Content)) { TruthyHit(Content, part); return; }
    TruthyMiss(Content, part);
  }

  /** The chunk taken from one fragment: the value of the first rule that applies, `''`
      when none does. */
  function StreamChunk(part: JVal): (r: JVal)
    ensures Truthy(r) || r.Str?
    ensures r ==
      if Truthy(Walk(part, TextField)) then Walk(part, TextField)
      else if Truthy(Walk(part, FirstBlockText)) then Walk(part, FirstBlockText)
      else if Truthy(Walk(part, Content)) then Walk(part, Content)
      else if part.Str? then part
      else Str("")
  {
    StreamOrder(part);
    TakeOr(Decide(StreamRules, part), Str(""))
  }

  /** `streamMessage` over the fragments the transport yields: the return value and the
      `onChunk` log. */
  function Stream(parts: seq<JVal>): (r: Streamed)
    ensures r.full == Joined(Accepted(Chunks(parts, StreamChunk)))
    ensures r.calls == Reports(Accepted(Chunks(parts, StreamChunk)))
  {
    Fold(Chunks(parts, StreamChunk))
  }
}
