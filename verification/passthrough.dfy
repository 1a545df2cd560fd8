/** The thin reply and stream handling shared by models/grok.js, models/llama.js and
    models/codestral.js: `response.<path> || response`, and one `onChunk(part?.text || '')`
    per fragment. */
module Passthrough {
  import opened Js
  import opened Extract
  import opened Accumulate

  /** `response.a?.b || response`: the field when truthy, the response itself otherwise; the
      first access throws on a nullish response. */
  function Reply(response: JVal, path: seq<Step>): (r: Outcome)
    requires path != []
    ensures Nullish(response) <==> r == Threw(TypeError)
    ensures !Nullish(response) && Truthy(Walk(response, path)) ==> r == Returned(Walk(response, path))
    ensures !Nullish(response) && !Truthy(Walk(response, path)) ==> r == Returned(response)
  {
    if Nullish(response) then Threw(TypeError) else Returned(Or(Walk(response, path), response))
  }

  /** `part?.text || ''` */
  function PartText(part: JVal): (r: JVal)
    ensures Truthy(r) || r == Str("")
    ensures Truthy(Walk(part, TextField)) ==> r == Walk(part, TextField)
  {
    Or(Walk(part, TextField), Str(""))
  }

  /** The arguments of the `onChunk` calls: exactly one per fragment, in order. */
  function ChunkLog(parts: seq<JVal>): (r: seq<JVal>)
    ensures |r| == |parts|
    ensures forall i :: 0 <= i < |parts| ==> r[i] == PartText(parts[i])
  {
    Chunks(parts, PartText)
  }

  /** A caller that appends every chunk it is given ends with the text of the truthy
      `part.text` fields; the empty chunks add nothing. */
  lemma LogJoinsTexts(parts: seq<JVal>)
    ensures Joined(ChunkLog(parts)) == Joined(Accepted(ChunkLog(parts)))
  {
    FoldAllAgrees(ChunkLog(parts));
  }
}
