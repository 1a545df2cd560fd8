/**
 * Stream accumulation: the `for await (const part of response)` loop every streaming
 * adapter runs, which turns each fragment into a chunk, appends it to `fullResponse`
 * and reports `onChunk(chunk, fullResponse)`.
 */
module Accumulate {
  import opened Js
  import opened Text

  /** One callback invocation `onChunk(chunk, fullSoFar)`. */
  datatype Call = Call(chunk: JVal, soFar: string)

  /** What a streaming call yields: its return value and the log of callback invocations. */
  datatype Streamed = Streamed(full: string, calls: seq<Call>)

  /** The chunk extracted from every fragment, in arrival order. */
  function Chunks(parts: seq<JVal>, extract: JVal -> JVal): (r: seq<JVal>)
    ensures |r| == |parts|
    ensures forall i :: 0 <= i < |parts| ==> r[i] == extract(parts[i])
  {
    seq(|parts|, i requires 0 <= i < |parts| => extract(parts[i]))
  }

  /** The chunks that pass the guard `if (chunkText)`, in arrival order. */
  function Accepted(chunks: seq<JVal>): (r: seq<JVal>)
    ensures |r| <= |chunks|
    ensures forall i :: 0 <= i < |r| ==> Truthy(r[i])
    decreases |chunks|
  {
    if chunks == [] then []
    else
      var last := chunks[|chunks| - 1];
      Accepted(chunks[..|chunks| - 1]) + (if Truthy(last) then [last] else [])
  }

  /** The chunks appended in order, each as `full += chunk` renders it. */
  function Joined(chunks: seq<JVal>): string
    decreases |chunks|
  {
    if chunks == [] then "" else Joined(chunks[..|chunks| - 1]) + ToStr(chunks[|chunks| - 1])
  }

  /** The callback log of a run whose appended chunks are `chunks`: the `i`-th call
      reports chunk `i` and the first `i + 1` chunks joined, `Joined(chunks[..i + 1])`. */
  function Reports(chunks: seq<JVal>): (r: seq<Call>)
    ensures |r| == |chunks|
  {
    seq(|chunks|, i requires 0 <= i < |chunks| => Call(chunks[i], Joined(chunks[..i + 1])))
  }

  /** Appending one chunk to a run appends one report, whose running text is the old one
      followed by the chunk. */
  lemma ReportsStep(before: seq<JVal>, c: JVal)
    ensures Joined(before + [c]) == Joined(before) + ToStr(c)
    ensures Reports(before + [c]) == Reports(before) + [Call(c, Joined(before + [c]))]
  {
    var a := before + [c];
    assert a[..|a| - 1] == before;
    assert a[..|before| + 1] == a;
    var ra, rb := Reports(a), Reports(before);
    forall i | 0 <= i < |before|
      ensures ra[i] == rb[i]
    {
      assert a[..i + 1] == before[..i + 1];
    }
    assert ra == rb + [Call(c, Joined(a))];
  }

  /** The filtering accumulator (gemini.js, claude-3.5.js, claude-3-sonnet.js): a chunk is
      appended and reported only when truthy.  The return value is the in-order
      concatenation of the accepted chunks, there is one callback per accepted chunk, and
      the `i`-th callback sees exactly the first `i + 1` accepted chunks joined. */
  function Fold(chunks: seq<JVal>): (r: Streamed)
    ensures r.full == Joined(Accepted(chunks))
    ensures r.calls == Reports(Accepted(chunks))
    decreases |chunks|
  {
    if chunks == [] then Streamed("", [])
    else
      var prev := Fold(chunks[..|chunks| - 1]);
      var c := chunks[|chunks| - 1];
      if Truthy(c) then
        var full := prev.full + ToStr(c);
        ReportsStep(Accepted(chunks[..|chunks| - 1]), c);
        Streamed(full, prev.calls + [Call(c, full)])
      else
        assert Accepted(chunks) == Accepted(chunks[..|chunks| - 1]);
        prev
  }

  /** The unfiltered accumulator (grok.js `generateCreativeContent`): every chunk, empty or
      not, is appended and reported. */
  function FoldAll(chunks: seq<JVal>): (r: Streamed)
    ensures r.full == Joined(chunks)
    ensures r.calls == Reports(chunks)
    decreases |chunks|
  {
    if chunks == [] then Streamed("", [])
    else
      var prev := FoldAll(chunks[..|chunks| - 1]);
      var c := chunks[|chunks| - 1];
      var full := prev.full + ToStr(c);
      ReportsStep(chunks[..|chunks| - 1], c);
      assert chunks[..|chunks| - 1] + [c] == chunks;
      Streamed(full, prev.calls + [Call(c, full)])
  }

  /** The running text after `i + 1` chunks is the one after `i` chunks plus chunk `i`. */
  lemma JoinedStep(a: seq<JVal>, i: nat)
    requires i < |a|
    ensures Joined(a[..i + 1]) == Joined(a[..i]) + ToStr(a[i])
  {
    assert a[..i + 1][..i] == a[..i];
  }

  /** Each reported running text ends with the chunk just reported, each is a prefix of the
      next (the running text is only ever appended to), and the last one is the final
      text. */
  lemma ReportsGrow(a: seq<JVal>)
    ensures forall i :: 0 <= i < |a| ==> IsSuffix(ToStr(Reports(a)[i].chunk), Reports(a)[i].soFar)
    ensures forall i :: 0 <= i < |a| - 1 ==> IsPrefix(Reports(a)[i].soFar, Reports(a)[i + 1].soFar)
    ensures |a| > 0 ==> Reports(a)[|a| - 1].soFar == Joined(a)
  {
    ReportsEndWithChunk(a);
    ReportsExtend(a);
    if |a| > 0 {
      assert a[..|a|] == a;
    }
  }

  lemma ReportsEndWithChunk(a: seq<JVal>)
    ensures forall i :: 0 <= i < |a| ==> IsSuffix(ToStr(Reports(a)[i].chunk), Reports(a)[i].soFar)
  {
    var r := Reports(a);
    forall i | 0 <= i < |a|
      ensures IsSuffix(ToStr(r[i].chunk), r[i].soFar)
    {
      JoinedStep(a, i);
    }
  }

  lemma ReportsExtend(a: seq<JVal>)
    ensures forall i :: 0 <= i < |a| - 1 ==> IsPrefix(Reports(a)[i].soFar, Reports(a)[i + 1].soFar)
  {
    var r := Reports(a);
    forall i | 0 <= i < |a| - 1
      ensures IsPrefix(r[i].soFar, r[i + 1].soFar)
    {
      JoinedStep(a, i + 1);
      assert r[i + 1].soFar == r[i].soFar + ToStr(a[i + 1]);
    }
  }

  /** The same facts for the filtering accumulator's log. */
  lemma CallsGrow(chunks: seq<JVal>)
    ensures forall i :: 0 <= i < |Fold(chunks).calls| ==>
              IsSuffix(ToStr(Fold(chunks).calls[i].chunk), Fold(chunks).calls[i].soFar)
    ensures forall i :: 0 <= i < |Fold(chunks).calls| - 1 ==>
              IsPrefix(Fold(chunks).calls[i].soFar, Fold(chunks).calls[i + 1].soFar)
    ensures |Fold(chunks).calls| > 0 ==>
              Fold(chunks).calls[|Fold(chunks).calls| - 1].soFar == Fold(chunks).full
  {
    ReportsGrow(Accepted(chunks));
  }

  lemma {:induction false} JoinedAppend(a: seq<JVal>, b: seq<JVal>)
    ensures Joined(a + b) == Joined(a) + Joined(b)
    decreases |b|
  {
    if b == [] {
      assert a + b == a;
    } else {
      var init, x := b[..|b| - 1], b[|b| - 1];
      assert b == init + [x];
      assert a + b == (a + init) + [x];
      JoinedAppend(a, init);
      JoinedSnoc(a + init, x);
      JoinedSnoc(init, x);
      Regroup(Joined(a), Joined(init), ToStr(x));
    }
  }

  /** Appending one chunk appends its text. */
  lemma JoinedSnoc(s: seq<JVal>, x: JVal)
    ensures Joined(s + [x]) == Joined(s) + ToStr(x)
  {
    assert (s + [x])[..|s|] == s;
  }

  lemma {:induction false} AcceptedAppend(a: seq<JVal>, b: seq<JVal>)
    ensures Accepted(a + b) == Accepted(a) + Accepted(b)
    decreases |b|
  {
    if b == [] {
      assert a + b == a;
    } else {
      assert (a + b)[..|a + b| - 1] == a + b[..|b| - 1];
      AcceptedAppend(a, b[..|b| - 1]);
    }
  }

  /** Accumulation over a stream split in two is accumulation over each half, concatenated:
      no chunk is lost, duplicated or reordered at any point of the stream. */
  lemma FoldAppend(a: seq<JVal>, b: seq<JVal>)
    ensures Fold(a + b).full == Fold(a).full + Fold(b).full
    ensures |Fold(a + b).calls| == |Fold(a).calls| + |Fold(b).calls|
    ensures Fold(a + b).calls[..|Fold(a).calls|] == Fold(a).calls
  {
    AcceptedAppend(a, b);
    JoinedAppend(Accepted(a), Accepted(b));
    ReportsPrefix(Accepted(a), Accepted(b));
  }

  /** The reports of a run extended with more chunks begin with the reports of the run. */
  lemma ReportsPrefix(a: seq<JVal>, b: seq<JVal>)
    ensures Reports(a + b)[..|a|] == Reports(a)
  {
    var r, ra := Reports(a + b), Reports(a);
    forall i | 0 <= i < |a|
      ensures r[i] == ra[i]
    {
      assert (a + b)[..i + 1] == a[..i + 1];
    }
  }

  /** When every chunk is either truthy or the empty string (as `part?.text || ''` makes
      it), reporting every chunk and reporting only the truthy ones build the same text. */
  lemma {:induction false} FoldAllAgrees(chunks: seq<JVal>)
    requires forall i :: 0 <= i < |chunks| ==> Truthy(chunks[i]) || chunks[i] == Str("")
    ensures FoldAll(chunks).full == Fold(chunks).full
    decreases |chunks|
  {
    if chunks != [] {
      var pre := chunks[..|chunks| - 1];
      var c := chunks[|chunks| - 1];
      FoldAllAgrees(pre);
      if Truthy(c) {
        ReportsStep(Accepted(pre), c);
      } else {
        assert Accepted(chunks) == Accepted(pre);
      }
    }
  }

  /** The streaming loop itself: it keeps the running text and the callback log and, at
      the end of the stream, has produced exactly `Fold` of the extracted chunks. */
  method Run(parts: seq<JVal>, extract: JVal -> JVal) returns (r: Streamed)
    ensures r == Fold(Chunks(parts, extract))
    ensures r.full == Joined(Accepted(Chunks(parts, extract)))
  {
    var full := "";
    var calls: seq<Call> := [];
    var i := 0;
    while i < |parts|
      invariant 0 <= i <= |parts|
      invariant Streamed(full, calls) == Fold(Chunks(parts[..i], extract))
    {
      var chunk := extract(parts[i]);
      assert Chunks(parts[..i + 1], extract) == Chunks(parts[..i], extract) + [chunk];
      assert Chunks(parts[..i + 1], extract)[..i] == Chunks(parts[..i], extract);
      if Truthy(chunk) {
        full := full + ToStr(chunk);
        calls := calls + [Call(chunk, full)];
      }
      i := i + 1;
    }
    assert parts[..i] == parts;
    r := Streamed(full, calls);
  }
}
