/** models/codestral.js: the request options, the reply, and the prompt builders for code
    generation, explanation, review and debugging. */
module Codestral {
  import opened Js
  import opened Text
  import opened Extract
  import opened Request
  import opened Passthrough

  const Model := "codestral-latest"

  /** The options of `sendMessage` (`stream` false) and `streamMessage` (`stream` true). */
  function Options(options: map<string, JVal>, stream: bool): (r: map<string, JVal>)
    ensures "model" in r && r["model"] == Str(Model)
    ensures stream ==> "stream" in r && r["stream"] == Bool(true)
    ensures forall k :: k in options && k != "model" && k != "stream" ==> k in r && r[k] == options[k]
    ensures forall k :: k in r ==> k in options || k == "model" || k == "stream"
    ensures !stream ==> ("stream" in r <==> "stream" in options)
    ensures !stream && "stream" in options ==> r["stream"] == options["stream"]
  {
    Spread(map[], options, Forced(Str(Model), stream))
  }

  /** `sendMessage`: `response.text || response`. */
  function SendResult(response: JVal): (r: Outcome)
    ensures Nullish(response) <==> r == Threw(TypeError)
    ensures !Nullish(response) && Truthy(Walk(response, TextField)) ==> r == Returned(Walk(response, TextField))
    ensures !Nullish(response) && !Truthy(Walk(response, TextField)) ==> r == Returned(response)
  {
    Reply(response, TextField)
  }

  /** `generateCode(description, language)` */
  function GeneratePrompt(description: string, language: string): string {
    "Write code" + (if language != "" then " in " + language else "") + " for the following:\n" + description
  }

  /** A language only inserts " in <language>" after "Write code"; without one the prompt
      names none. */
  lemma GenerateLanguage(description: string, language: string)
    requires language != ""
    ensures GeneratePrompt(description, language)
         == Insert(GeneratePrompt(description, ""), |"Write code"|, " in " + language)
  {
    InsertBetween("Write code", " for the following:\n" + description, " in " + language);
  }

  /** `explainCode(code, language)` */
  function ExplainPrompt(code: string, language: string): string {
    "Explain this" + (if language != "" then " " + language else "") + " code:\n\n```\n" + code + "\n```"
  }

  /** A language only inserts " <language>" after "Explain this". */
  lemma ExplainLanguage(code: string, language: string)
    requires language != ""
    ensures ExplainPrompt(code, language)
         == Insert(ExplainPrompt(code, ""), |"Explain this"|, " " + language)
  {
    InsertBetween("Explain this", " code:\n\n```\n" + code + "\n```", " " + language);
  }

  /** A review flag: an absent or undefined option means `true` (the destructuring
      default), any other value counts by its truthiness. */
  predicate Flag(options: map<string, JVal>, name: string) {
    Lookup(options, name) == Undefined || Truthy(Lookup(options, name))
  }

  const Bugs := "Potential issues or bugs"
  const Improvements := "Suggestions for improvement"
  const BestPractices := "Best practices that could be applied"

  /** The enabled review items, always in the order bugs, improvements, best practices. */
  function ReviewItems(options: map<string, JVal>): (r: seq<string>)
    ensures |r| <= 3
    ensures Bugs in r <==> Flag(options, "checkBugs")
    ensures Improvements in r <==> Flag(options, "suggestImprovements")
    ensures BestPractices in r <==> Flag(options, "checkBestPractices")
    ensures forall i, j :: 0 <= i < j < |r| ==> Rank(r[i]) < Rank(r[j])
  {
    (if Flag(options, "checkBugs") then [Bugs] else [])
    + (if Flag(options, "suggestImprovements") then [Improvements] else [])
    + (if Flag(options, "checkBestPractices") then [BestPractices] else [])
  }

  /** The position of an item in the fixed order. */
  function Rank(item: string): nat {
    if item == Bugs then 0 else if item == Improvements then 1 else 2
  }

  /** `items.map((item, i) => `${i + 2}. ${item}`)` */
  function Numbered(items: seq<string>): (r: seq<string>)
    ensures |r| == |items|
    ensures forall i :: 0 <= i < |items| ==> r[i] == Decimal(i + 2) + ". " + items[i]
  {
    seq(|items|, i requires 0 <= i < |items| => Decimal(i + 2) + ". " + items[i])
  }

  /** The numbered points joined by newlines. */
  function Points(items: seq<string>): string {
    Join("\n", Numbered(items))
  }

  /** The prompt of `createReviewPrompt(code, options)`; `reviewCode` sends this same text. */
  function ReviewPrompt(code: string, options: map<string, JVal>): string {
    "\nPlease review this code and provide:\n1. A brief explanation of what the code does\n"
    + Points(ReviewItems(options)) + "\n\nHere's the code:\n\n```\n" + code + "\n```"
  }

  /** The points section reads back, line by line, as the items numbered from 2 in order. */
  lemma PointsLines(items: seq<string>)
    requires |items| >= 1
    requires forall i :: 0 <= i < |items| ==> '\n' !in items[i]
    ensures Split(Points(items), '\n') == Numbered(items)
  {
    var lines := Numbered(items);
    forall i | 0 <= i < |lines|
      ensures '\n' !in lines[i]
    {
      DecimalDigits(i + 2);
      assert lines[i] == Decimal(i + 2) + ". " + items[i];
    }
    JoinSplit(lines, '\n');
  }

  /** Decimal digits are never a newline. */
  lemma {:induction false} DecimalDigits(n: nat)
    ensures '\n' !in Decimal(n)
    decreases n
  {
    if n >= 10 {
      DecimalDigits(n / 10);
    }
  }

  /** With all flags off there are no points at all. */
  lemma NoPoints(options: map<string, JVal>)
    requires !Flag(options, "checkBugs") && !Flag(options, "suggestImprovements")
    requires !Flag(options, "checkBestPractices")
    ensures Points(ReviewItems(options)) == ""
  {
  }

  lemma SmallDecimals()
    ensures Decimal(2) == "2" && Decimal(3) == "3" && Decimal(4) == "4"
  {
  }

  /** With default options all three items are enabled, in the fixed order. */
  lemma DefaultItems()
    ensures ReviewItems(map[]) == [Bugs, Improvements, BestPractices]
  {
    var none: map<string, JVal> := map[];
    assert Flag(none, "checkBugs") && Flag(none, "suggestImprovements") && Flag(none, "checkBestPractices");
  }

  /** Each item is a single line. */
  lemma ItemsSingleLine()
    ensures forall j :: 0 <= j < |Bugs| ==> Bugs[j] != '\n'
    ensures forall j :: 0 <= j < |Improvements| ==> Improvements[j] != '\n'
    ensures forall j :: 0 <= j < |BestPractices| ==> BestPractices[j] != '\n'
  {
  }

  /** With default options the points section reads as points 2, 3 and 4 on consecutive
      lines. */
  lemma DefaultPoints()
    ensures Split(Points(ReviewItems(map[])), '\n')
         == ["2" + ". " + Bugs, "3" + ". " + Improvements, "4" + ". " + BestPractices]
  {
    DefaultItems();
    ItemsSingleLine();
    var items := [Bugs, Improvements, BestPractices];
    PointsLines(items);
    SmallDecimals();
    var lines := Numbered(items);
    assert lines[0] == "2" + ". " + Bugs;
    assert lines[1] == "3" + ". " + Improvements;
    assert lines[2] == "4" + ". " + BestPractices;
  }

  const ErrorHeader := "Here is the error message:"
  const DebugLead := "\nPlease help debug this code. "

  /** The part of the debugging prompt after the optional error block. */
  function DebugRest(code: string): string {
    "Here's the code:\n\n```\n" + code + "\n```\n\nPlease provide:\n"
    + "1. Identification of the issue(s)\n2. Explanation of what's causing the problem\n"
    + "3. Suggested fix with corrected code\n4. Tips to prevent similar issues in the future"
  }

  /** The header line's addition: the header when there is an error message. */
  function HeaderFor(errorMessage: string): string {
    if errorMessage != "" then ErrorHeader else ""
  }

  /** The error block: the header, a blank line, the message and a blank line. */
  function ErrorBlock(errorMessage: string): string {
    if errorMessage != "" then ErrorHeader + "\n\n" + errorMessage + "\n\n" else ""
  }

  /** `createDebugPrompt(code, errorMessage)`; `debugCode` sends this same text. */
  function DebugPrompt(code: string, errorMessage: string): string {
    DebugLead + HeaderFor(errorMessage) + "\n\n" + ErrorBlock(errorMessage) + DebugRest(code)
  }

  /** Two insertions into `lead + gap + rest`, the later one first. */
  lemma InsertTwice(lead: string, header: string, gap: string, block: string, rest: string)
    ensures lead + header + gap + block + rest
         == Insert(Insert(lead + gap + rest, |lead| + |gap|, block), |lead|, header)
  {
    InsertBetween(lead + gap, rest, block);
    RegroupTail(lead, gap, block, rest);
    InsertBetween(lead, gap + block + rest, header);
    RegroupHead(lead, header, gap, block, rest);
  }

  lemma RegroupTail(a: string, b: string, c: string, d: string)
    ensures a + b + c + d == a + (b + c + d)
  {
  }

  lemma RegroupHead(a: string, h: string, b: string, c: string, d: string)
    ensures a + h + (b + c + d) == a + h + b + c + d
  {
  }

  /** An error message inserts the header after the lead, and the header with the message
      after the blank line that follows; nothing else changes. */
  lemma DebugError(code: string, errorMessage: string)
    requires errorMessage != ""
    ensures DebugPrompt(code, errorMessage)
         == Insert(Insert(DebugPrompt(code, ""), |DebugLead| + 2, ErrorBlock(errorMessage)),
                   |DebugLead|, ErrorHeader)
  {
    NoErrorPrompt(code);
    InsertTwice(DebugLead, ErrorHeader, "\n\n", ErrorBlock(errorMessage), DebugRest(code));
  }

  /** Without an error message the prompt is the lead, a blank line and the rest. */
  lemma NoErrorPrompt(code: string)
    ensures DebugPrompt(code, "") == DebugLead + "\n\n" + DebugRest(code)
  {
    assert HeaderFor("") == "" && ErrorBlock("") == "";
    DropEmpty(DebugLead, "\n\n", DebugRest(code));
  }

  lemma DropEmpty(a: string, b: string, c: string)
    ensures a + "" + b + "" + c == a + b + c
  {
  }
}
