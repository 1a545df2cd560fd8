/** models/claude-3.5.js: the request body, the buffered reply extraction with its
    content-block scan, and the stream loop whose extraction may throw. */
module Claude35 {
  import opened Js
  import opened Text
  import opened Wrappers
  import opened Extract
  import opened Accumulate
  import opened Request
  import FirstMatch
  import Normalise

  const Model := "claude-3-5-sonnet"

  const DefaultParams: map<string, JVal> := map["temperature" := Num("0.7"), "top_p" := Num("0.9")]

  /** The single argument the transport receives, built from the defaults, the caller's
      options, the model name and, when streaming, `stream: true`. */
  function Body(message: JVal, options: map<string, JVal>, stream: bool): (r: map<string, JVal>)
    ensures "model" in r && r["model"] == Str(Model)
    ensures stream ==> "stream" in r && r["stream"] == Bool(true)
    ensures "messages" in r
    ensures "messages" !in options ==> r["messages"] == Arr(Normalise.FormatMessages(message))
    ensures "messages" in options ==> r["messages"] == options["messages"]
    ensures forall k :: k in options && k != "model" && !(stream && k == "stream") ==> k in r && r[k] == options[k]
    ensures forall k :: k in DefaultParams && k !in options && k != "model" && !(stream && k == "stream")
              ==> k in r && r[k] == DefaultParams[k]
    ensures forall k :: k in r ==> k in options || k in DefaultParams || k in {"messages", "model", "stream"}
  {
    Envelope(Normalise.FormatMessages(message), DefaultParams, options, Model, stream)
  }

  /** `streamMessage` sends what `sendMessage` sends, plus `stream: true`. */
  lemma StreamBodyAddsStream(message: JVal, options: map<string, JVal>)
    ensures Body(message, options, true) == Body(message, options, false)["stream" := Bool(true)]
  {
    EnvelopeStreamAddsStream(Normalise.FormatMessages(message), DefaultParams, options, Model);
  }

  /** `new Error(response.error.message || "Error from Claude 3.5 API")` */
  function Failure(response: JVal): (e: Thrown)
    ensures e.ErrorWith?
    ensures Truthy(Walk(response, ErrorMessage)) ==> e.message == ToStr(Walk(response, ErrorMessage))
    ensures !Truthy(Walk(response, ErrorMessage)) ==> e.message == "Error from Claude 3.5 API"
  {
    ErrorWith(ToStr(Or(Walk(response, ErrorMessage), Str("Error from Claude 3.5 API"))))
  }

  /** The buffered chain after the error check: the text blocks of an array
      `message.content`, `message.content[0].text`, a string `content`, a string reply. */
  const SendRules: seq<Rule> :=
    [NotNullish, TextBlocksAt(MessageContent), TruthyAt(FirstBlockText), TruthyStringAt(Content), SelfString]

  const UnexpectedPrefix := "Received unexpected response format. Raw data: "

  /** The buffered chain, rule by rule: a nullish reply throws on `response.message`; an
      array `message.content` decides by its block scan; then `message.content[0].text`, a
      non-empty string `content`, a string reply. */
  lemma SendOrder(response: JVal)
    ensures Decide(SendRules, response) ==
      if Nullish(response) then Throw
      else if Walk(response, MessageContent).Arr? then ScanBlocks(Walk(response, MessageContent).items)
      else if Truthy(Walk(response, FirstBlockText)) then Take(Walk(response, FirstBlockText))
      else if Truthy(Walk(response, Content)) && Walk(response, Content).Str? then Take(Walk(response, Content))
      else if response.Str? then Take(response)
      else Skip
  {
    Decide5(NotNullish, TextBlocksAt(MessageContent), TruthyAt(FirstBlockText), TruthyStringAt(Content), SelfString, response);
    if Nullish(response) { return; }
    if Walk(response, MessageContent).Arr? { BlocksHit(MessageContent, response); return; }
    BlocksMiss(MessageContent, response);
    if Truthy(Walk(response, FirstBlockText)) { TruthyHit(FirstBlockText, response); return; }
    TruthyMiss(FirstBlockText, response);
    if Truthy(Walk(response, Content)) && Walk(response, Content).Str? { StringHit(Content, response); return; }
    StringMiss(Content, response);
  }

  /** `sendMessage` on the transport's response; `json` stands for `JSON.stringify(…, null, 2)`.
      A reply no rule matches is reported with its serialisation when it is an object or an
      array, and through `String(response)` otherwise. */
  function SendResult(response: JVal, json: JVal -> string): (r: Outcome)
    ensures r ==
      if CarriesError(response) then Threw(Failure(response))
      else if Nullish(response) then Threw(TypeError)
      else if Walk(response, MessageContent).Arr? then
        (if HasNullish(Walk(response, MessageContent).items) then Threw(TypeError)
         else Returned(Str(Concat(BlockTexts(Walk(response, MessageContent).items)))))
      else if Truthy(Walk(response, FirstBlockText)) then Returned(Walk(response, FirstBlockText))
      else if Truthy(Walk(response, Content)) && Walk(response, Content).Str? then Returned(Walk(response, Content))
      else if response.Str? then Returned(response)
      else if response.Obj? || response.Arr? then Returned(Str(UnexpectedPrefix + json(response)))
      else Returned(Str(ToStr(response)))
  {
    SendOrder(response);
    if CarriesError(response) then Threw(Failure(response))
    else
      match Decide(SendRules, response)
      case Throw => Threw(TypeError)
      case Take(v) => Returned(v)
      case Skip =>
        if response.Obj? || response.Arr? then Returned(Str(UnexpectedPrefix + json(response)))
        else Returned(Str(ToStr(response)))
  }

  /** The streaming chain, in source order. */
  const StreamRules: seq<Rule> :=
    [NotNullish, TextBlocksAt(MessageContent), TruthyAt(FirstBlockText), TruthyAt(DeltaText),
     TextBlocksAt(DeltaContent), TruthyAt(TextField), TruthyStringAt(Content), SelfString]

  /** The streaming chain, rule by rule: a nullish fragment throws on `part.message`; an
      array `message.content` decides by its block scan; then `message.content[0].text`,
      `delta.text`, the block scan of an array `delta.content`, `text`, a non-empty string
      `content`, a string fragment. */
  lemma StreamOrder(part: JVal)
    ensures Decide(StreamRules, part) ==
      if Nullish(part) then Throw
      else if Walk(part, MessageContent).Arr? then ScanBlocks(Walk(part, MessageContent).items)
      else if Truthy(Walk(part, FirstBlockText)) then Take(Walk(part, FirstBlockText))
      else if Truthy(Walk(part, DeltaText)) then Take(Walk(part, DeltaText))
      else if Walk(part, DeltaContent).Arr? then ScanBlocks(Walk(part, DeltaContent).items)
      else if Truthy(Walk(part, TextField)) then Take(Walk(part, TextField))
      else if Truthy(Walk(part, Content)) && Walk(part, Content).Str? then Take(Walk(part, Content))
      else if part.Str? then Take(part)
      else Skip
  {
    Decide8(NotNullish, TextBlocksAt(MessageContent), TruthyAt(FirstBlockText), TruthyAt(DeltaText),
            TextBlocksAt(DeltaContent), TruthyAt(TextField), TruthyStringAt(Content), SelfString, part);
    if Nullish(part) { return; }
    if Walk(part, MessageContent).Arr? { BlocksHit(MessageContent, part); return; }
    BlocksMiss(MessageContent, part);
    if Truthy(Walk(part, FirstBlockText)) { TruthyHit(FirstBlockText, part); return; }
    TruthyMiss(FirstBlockText, part);
    if Truthy(Walk(part, DeltaText)) { TruthyHit(DeltaText, part); return; }
    TruthyMiss(DeltaText, part);
    if Walk(part, DeltaContent).Arr? { BlocksHit(DeltaContent, part); return; }
    BlocksMiss(DeltaContent, part);
    if Truthy(Walk(part, TextField)) { TruthyHit(TextField, part); return; }
    TruthyMiss(TextField, part);
    if Truthy(Walk(part, Content)) && Walk(part, Content).Str? { StringHit(Content, part); return; }
    StringMiss(Content, part);
  }

  /** A fragment on which the chain throws: a nullish fragment (`part.message`), or a
      nullish block inside `message.content` or `delta.content` (`block.type`). */
  predicate Breaks(part: JVal) {
    Decide(StreamRules, part) == Throw
  }

  /** Exactly the fragments described above break the loop. */
  lemma BreaksExactly(part: JVal)
    ensures Breaks(part) <==>
      Nullish(part)
      || (Walk(part, MessageContent).Arr? && HasNullish(Walk(part, MessageContent).items))
      || (!Walk(part, MessageContent).Arr? && !Truthy(Walk(part, FirstBlockText))
          && !Truthy(Walk(part, DeltaText)) && Walk(part, DeltaContent).Arr?
          && HasNullish(Walk(part, DeltaContent).items))
  {
    StreamOrder(part);
  }

  /** The chunk taken from a fragment that does not break the loop; the text of the
      first rule that applies, `''` when none does. */
  function StreamChunk(part: JVal): (r: JVal)
    ensures Truthy(r) || r.Str?
    ensures !Breaks(part) ==>
              r == (if Walk(part, MessageContent).Arr? then Str(Concat(BlockTexts(Walk(part, MessageContent).items)))
                  else if Truthy(Walk(part, FirstBlockText)) then Walk(part, FirstBlockText)
                  else if Truthy(Walk(part, DeltaText)) then Walk(part, DeltaText)
                  else if Walk(part, DeltaContent).Arr? then Str(Concat(BlockTexts(Walk(part, DeltaContent).items)))
                  else if Truthy(Walk(part, TextField)) then Walk(part, TextField)
                  else if Truthy(Walk(part, Content)) && Walk(part, Content).Str? then Walk(part, Content)
                  else if part.Str? then part
                  else Str(""))
  {
    StreamOrder(part);
    TakeOr(Decide(StreamRules, part), Str(""))
  }

  /** What `streamMessage` yields: how it ended and the `onChunk` log up to then. */
  datatype Attempt = Attempt(result: Outcome, calls: seq<Call>)

  /** The stream loop for any breaking test and chunk extraction: the fragments are
      processed in order until the first breaking one. */
  function StreamWith(parts: seq<JVal>, breaks: JVal -> bool, chunk: JVal -> JVal): (r: Attempt)
    ensures (forall i :: 0 <= i < |parts| ==> !breaks(parts[i]))
            ==> r.result == Returned(Str(Joined(Accepted(Chunks(parts, chunk)))))
                && r.calls == Reports(Accepted(Chunks(parts, chunk)))
    ensures forall i :: 0 <= i < |parts| && breaks(parts[i])
              && (forall j :: 0 <= j < i ==> !breaks(parts[j]))
              ==> r.result == Threw(TypeError)
                  && r.calls == Reports(Accepted(Chunks(parts[..i], chunk)))
  {
    match FirstMatch.IndexOfFirst(parts, breaks)
    case None =>
      var f := Fold(Chunks(parts, chunk));
      Attempt(Returned(Str(f.full)), f.calls)
    case Some(i) =>
      var f := Fold(Chunks(parts[..i], chunk));
      Attempt(Threw(TypeError), f.calls)
  }

  /** `streamMessage` over the fragments the transport yields.  Without a breaking
      fragment it returns the accumulated text; otherwise the `TypeError` escapes, after
      the callbacks of the fragments before the first breaking one. */
  function Stream(parts: seq<JVal>): (r: Attempt)
    ensures (forall i :: 0 <= i < |parts| ==> !Breaks(parts[i]))
            ==> r.result == Returned(Str(Joined(Accepted(Chunks(parts, StreamChunk)))))
                && r.calls == Reports(Accepted(Chunks(parts, StreamChunk)))
    ensures forall i :: 0 <= i < |parts| && Breaks(parts[i])
              && (forall j :: 0 <= j < i ==> !Breaks(parts[j]))
              ==> r.result == Threw(TypeError)
                  && r.calls == Reports(Accepted(Chunks(parts[..i], StreamChunk)))
  {
    StreamWith(parts, Breaks, StreamChunk)
  }
}
