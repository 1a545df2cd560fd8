/**
 * The message normaliser `formatMessages`, shared word for word by models/gemini.js,
 * models/claude-3.5.js and models/claude-3-sonnet.js: it turns whatever the caller passed
 * into the list of `{role, content}` messages the transport expects.
 */
module Normalise {
  import opened Js

  /** `message && typeof message === 'object' && message.role && message.content` for a
      value that is not an array. */
  predicate IsMessage(v: JVal) {
    v.Obj? && Truthy(Get(v, Key("role"))) && Truthy(Get(v, Key("content")))
  }

  /** The first-match rules: an array is passed through, a message object is wrapped, a
      string becomes one user message, anything else becomes one user message holding
      `String(input) || 'Hello'`. */
  function FormatMessages(input: JVal): (r: seq<JVal>)
    ensures input.Arr? ==> r == input.items
    ensures !input.Arr? ==> |r| == 1
    ensures IsMessage(input) ==> r == [input]
    ensures input.Str? ==> r == [Message("user", input)]
    ensures !input.Arr? && !input.Str? ==> IsMessage(r[0])
    ensures !input.Arr? && !IsMessage(input) ==> Get(r[0], Key("role")) == Str("user")
    ensures !input.Arr? && !IsMessage(input) && !input.Str? ==>
              Get(r[0], Key("content")) == Str(if ToStr(input) == "" then "Hello" else ToStr(input))
  {
    if input.Arr? then input.items
    else if IsMessage(input) then [input]
    else if input.Str? then [Message("user", input)]
    else [Message("user", Or(Str(ToStr(input)), Str("Hello")))]
  }

  /** The result is never empty unless the caller passed an empty array, which is passed
      through as it is. */
  lemma NeverEmpty(input: JVal)
    ensures |FormatMessages(input)| == 0 <==> input == Arr([])
  {
  }

  /** Normalising is idempotent on its own output: the list it returns, passed back in,
      comes back unchanged. */
  lemma Idempotent(input: JVal)
    ensures FormatMessages(Arr(FormatMessages(input))) == FormatMessages(input)
  {
  }

  /** The single message built for a non-array input is itself recognised as a message, so
      normalising it again wraps the same object - except for the empty string, whose
      message has a falsy `content` and is then taken for an unknown shape and stringified. */
  lemma SingleMessageStable(input: JVal)
    requires !input.Arr? && input != Str("")
    ensures FormatMessages(FormatMessages(input)[0]) == FormatMessages(input)
  {
  }

  /** The exception: the message made from `''` re-normalises to `"[object Object]"`. */
  lemma EmptyStringMessageUnstable()
    ensures FormatMessages(Str("")) == [Message("user", Str(""))]
    ensures FormatMessages(FormatMessages(Str(""))[0]) == [Message("user", Str("[object Object]"))]
  {
  }

  /** The `'Hello'` default is dead for every shape but a number: `undefined`, `null`, a
      boolean and an object that is not a message all stringify to non-empty text, which
      becomes the content. */
  lemma FallbackStringifies(input: JVal)
    requires !input.Arr? && !input.Str? && !input.Num? && !IsMessage(input)
    ensures ToStr(input) != ""
    ensures FormatMessages(input) == [Message("user", Str(ToStr(input)))]
  {
  }
}
