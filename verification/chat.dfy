/** The pure helpers of script.js: the paragraph formatter, the capped chat history, the
    OCR preview text, the theme rule, and what one send from the chat box produces. */
module Chat {
  import opened Js
  import opened Text
  import opened Wrappers
  import opened Extract
  import opened Accumulate
  import opened Request

  /** `<p>${line}</p>` */
  function Para(line: string): string {
    "<p>" + line + "</p>"
  }

  /** `.filter(line => line.trim() !== '')`: the lines that are not blank, in order. */
  function Kept(lines: seq<string>): (r: seq<string>)
    ensures |r| <= |lines|
    ensures forall i :: 0 <= i < |r| ==> !Blank(r[i])
    ensures |lines| == 1 ==> r == if Blank(lines[0]) then [] else lines
    decreases |lines|
  {
    if lines == [] then []
    else
      var last := lines[|lines| - 1];
      Kept(lines[..|lines| - 1]) + (if Blank(last) then [] else [last])
  }

  /** `.map(line => `<p>${line}</p>`)` */
  function Wrap(lines: seq<string>): (r: seq<string>)
    ensures |r| == |lines|
    ensures forall i :: 0 <= i < |lines| ==> r[i] == Para(lines[i])
  {
    seq(|lines|, i requires 0 <= i < |lines| => Para(lines[i]))
  }

  /** `formatMessageContent(text)`: one paragraph per non-blank line, lines kept as they are
      and in order, paragraphs joined with nothing between them. */
  function FormatMessageContent(text: string): string {
    Concat(Wrap(Kept(Split(text, '\n'))))
  }

  lemma {:induction false} KeptAppend(a: seq<string>, b: seq<string>)
    ensures Kept(a + b) == Kept(a) + Kept(b)
    decreases |b|
  {
    if b == [] {
      assert a + b == a;
    } else {
      assert (a + b)[..|a + b| - 1] == a + b[..|b| - 1];
      KeptAppend(a, b[..|b| - 1]);
    }
  }

  /** A line survives the filter exactly when it occurs in the input and is not blank. */
  lemma {:induction false} KeptMembers(lines: seq<string>, x: string)
    ensures x in Kept(lines) <==> x in lines && !Blank(x)
    decreases |lines|
  {
    if lines != [] {
      var init := lines[..|lines| - 1];
      KeptMembers(init, x);
      assert lines == init + [lines[|lines| - 1]];
    }
  }

  lemma WrapAppend(a: seq<string>, b: seq<string>)
    ensures Wrap(a + b) == Wrap(a) + Wrap(b)
  {
  }

  /** The formatter is a homomorphism across a newline: formatting `a + "\n" + b` is
      formatting `a`, then formatting `b`. */
  lemma FormatAcrossNewline(a: string, b: string)
    ensures FormatMessageContent(a + "\n" + b) == FormatMessageContent(a) + FormatMessageContent(b)
  {
    SplitAcross(a, '\n', b);
    assert a + "\n" + b == a + ['\n'] + b;
    KeptAppend(Split(a, '\n'), Split(b, '\n'));
    WrapAppend(Kept(Split(a, '\n')), Kept(Split(b, '\n')));
    ConcatAppend(Wrap(Kept(Split(a, '\n'))), Wrap(Kept(Split(b, '\n'))));
  }

  /** A single line becomes one paragraph holding it unchanged, or nothing when blank. */
  lemma FormatLine(line: string)
    requires '\n' !in line
    ensures FormatMessageContent(line) == if Blank(line) then "" else Para(line)
  {
    SplitNone(line, '\n');
    assert [line][..0] == [];
    if !Blank(line) {
      assert Wrap([line]) == [Para(line)];
      assert Concat([Para(line)]) == Concat([]) + Para(line);
    }
  }

  /** Text made only of blanks and newlines formats to nothing. */
  lemma FormatBlank(text: string)
    requires Blank(text)
    ensures FormatMessageContent(text) == ""
  {
    SplitBlank(text, '\n');
    NoneKept(Split(text, '\n'));
  }

  lemma {:induction false} NoneKept(lines: seq<string>)
    requires forall i :: 0 <= i < |lines| ==> Blank(lines[i])
    ensures Kept(lines) == []
    decreases |lines|
  {
    if lines != [] {
      NoneKept(lines[..|lines| - 1]);
    }
  }

  const HistoryLimit := 20

  /** `saveChatHistory(item)`: the new item first, the earlier ones after it in their order,
      at most twenty kept. */
  function SaveChatHistory<T>(history: seq<T>, item: T): (r: seq<T>)
    ensures |r| == if |history| + 1 > HistoryLimit then HistoryLimit else |history| + 1
    ensures r[0] == item
    ensures forall i :: 1 <= i < |r| ==> r[i] == history[i - 1]
  {
    var all := [item] + history;
    if |all| > HistoryLimit then all[..HistoryLimit] else all
  }

  /** The history after saving each of `items` in turn. */
  function SaveAll<T>(history: seq<T>, items: seq<T>): seq<T>
    decreases |items|
  {
    if items == [] then history
    else SaveChatHistory(SaveAll(history, items[..|items| - 1]), items[|items| - 1])
  }

  /** `s` newest first. */
  function Reverse<T>(s: seq<T>): (r: seq<T>)
    ensures |r| == |s|
    ensures forall i :: 0 <= i < |s| ==> r[i] == s[|s| - 1 - i]
  {
    seq(|s|, i requires 0 <= i < |s| => s[|s| - 1 - i])
  }

  /** Starting from an empty history, the history holds the latest twenty items saved,
      newest first. */
  lemma {:induction false} SavedNewestFirst<T>(items: seq<T>)
    ensures SaveAll([], items) == Reverse(items)[..if |items| > HistoryLimit then HistoryLimit else |items|]
    decreases |items|
  {
    if items != [] {
      var n := |items| - 1;
      SavedNewestFirst(items[..n]);
      var before := SaveAll([], items[..n]);
      var after := SaveAll([], items);
      var want := Reverse(items)[..if |items| > HistoryLimit then HistoryLimit else |items|];
      assert after == SaveChatHistory(before, items[n]);
      assert |after| == |want|;
      forall i | 0 <= i < |after|
        ensures after[i] == want[i]
      {
        if i > 0 {
          assert after[i] == before[i - 1];
          assert before[i - 1] == Reverse(items[..n])[i - 1];
        }
      }
    }
  }

  const PreviewLimit := 150

  /** The OCR result text shown: longer text cut to 150 characters and an ellipsis, empty
      text replaced by a notice. */
  function OcrPreview(text: string): (r: string)
    ensures |r| <= PreviewLimit + 3
    ensures |text| > PreviewLimit ==> |r| == PreviewLimit + 3 && r[..PreviewLimit] == text[..PreviewLimit] && r[PreviewLimit..] == "..."
    ensures 0 < |text| <= PreviewLimit ==> r == text
    ensures text == "" ==> r == "No text found in image"
  {
    var preview := if |text| > PreviewLimit then text[..PreviewLimit] + "..." else text;
    if preview == "" then "No text found in image" else preview
  }

  /** A long text's preview depends on its first 150 characters only. */
  lemma OcrPreviewSeesHead(a: string, b: string)
    requires |a| > PreviewLimit && |b| > PreviewLimit && a[..PreviewLimit] == b[..PreviewLimit]
    ensures OcrPreview(a) == OcrPreview(b)
  {
  }

  /** The notice is shown for empty text, and otherwise only for text that reads exactly
      like it; any other short text is shown as it is, so two different short texts are
      never shown alike. */
  lemma OcrPreviewNotice(a: string, b: string)
    ensures OcrPreview(a) == "No text found in image" <==> a == "" || a == "No text found in image"
    ensures 0 < |a| <= PreviewLimit && 0 < |b| <= PreviewLimit && OcrPreview(a) == OcrPreview(b) ==> a == b
  {
    assert |"No text found in image"| == 22;
  }

  /** The theme-specific body classes. */
  const Themes: set<string> := {"dark", "grey", "sunrise", "multicolor"}

  /** What `applyTheme` leaves behind: the stored dark flag, the body's theme class, and
      whether the toggle shows the sun icon. */
  datatype ThemeView = ThemeView(darkMode: bool, bodyClass: Option<string>, toggleShowsSun: bool)

  /** `applyTheme(theme)` from the dark flag `darkMode`: `dark` sets the flag, `grey`,
      `sunrise` and `multicolor` keep it, any other name clears it. */
  function ApplyTheme(darkMode: bool, theme: string): (r: ThemeView)
    ensures theme == "dark" ==> r.darkMode
    ensures theme in Themes && theme != "dark" ==> r.darkMode == darkMode
    ensures theme !in Themes ==> !r.darkMode
    ensures r.bodyClass.Some? <==> theme in Themes
    ensures r.bodyClass.Some? ==> r.bodyClass.value == theme + "-theme"
    ensures r.toggleShowsSun <==> theme == "dark"
  {
    if theme == "dark" then ThemeView(true, Some("dark-theme"), true)
    else if theme == "grey" then ThemeView(darkMode, Some("grey-theme"), false)
    else if theme == "sunrise" then ThemeView(darkMode, Some("sunrise-theme"), false)
    else if theme == "multicolor" then ThemeView(darkMode, Some("multicolor-theme"), false)
    else ThemeView(false, None, false)
  }

  /** Applying the same theme again changes nothing. */
  lemma ApplyThemeIdempotent(darkMode: bool, theme: string)
    ensures ApplyTheme(ApplyTheme(darkMode, theme).darkMode, theme) == ApplyTheme(darkMode, theme)
  {
  }

  /** One entry of a saved conversation: who said it, what, and (for replies) which model. */
  datatype Said = Said(sender: string, content: string, model: Option<JVal>)

  /** A saved conversation. */
  datatype HistoryItem = HistoryItem(firstMessage: string, messages: seq<Said>)

  /** What one send produces: the transport call, the HTML the reply area shows after each
      appended text, the answer, the saved conversation and the history after saving it. */
  datatype Sent = Sent(request: ChatCall, views: seq<string>, answer: string, item: HistoryItem,
                       history: seq<HistoryItem>)

  /** `part?.text`: the guard `if (part?.text)` keeps it only when truthy. */
  function TextOf(part: JVal): JVal {
    Walk(part, TextField)
  }

  /** `sendMessageToAI` with input box text `input`, the selected model, the fragments the
      transport streams and the stored history.  Blank input does nothing; otherwise every
      truthy `part.text` is appended, the reply area is re-rendered after each, and the
      conversation [user, assistant] is saved first in the history. */
  function SendToAI(input: string, activeModel: JVal, parts: seq<JVal>, history: seq<HistoryItem>)
    : (r: Option<Sent>)
    ensures r.None? <==> Blank(input)
    ensures r.Some? ==> r.value.request == ChatCall(Str(Trim(input)), Some(map["model" := activeModel, "stream" := Bool(true)]))
    ensures r.Some? ==> r.value.answer == Joined(Accepted(Chunks(parts, TextOf)))
    ensures r.Some? ==> |r.value.views| == |Accepted(Chunks(parts, TextOf))|
    ensures r.Some? ==> forall i :: 0 <= i < |r.value.views| ==>
              r.value.views[i] == FormatMessageContent(Joined(Accepted(Chunks(parts, TextOf))[..i + 1]))
    ensures r.Some? ==> r.value.item.firstMessage == Trim(input)
    ensures r.Some? ==>
              r.value.item.messages == [Said("user", Trim(input), None), Said("assistant", r.value.answer, Some(activeModel))]
    ensures r.Some? ==> r.value.history == SaveChatHistory(history, r.value.item)
  {
    var message := Trim(input);
    if message == "" then None
    else
      var streamed := Fold(Chunks(parts, TextOf));
      var views := seq(|streamed.calls|, i requires 0 <= i < |streamed.calls| => FormatMessageContent(streamed.calls[i].soFar));
      var item := HistoryItem(message, [Said("user", message, None), Said("assistant", streamed.full, Some(activeModel))]);
      Some(Sent(ChatCall(Str(message), Some(map["model" := activeModel, "stream" := Bool(true)])),
                views, streamed.full, item, SaveChatHistory(history, item)))
  }
}
