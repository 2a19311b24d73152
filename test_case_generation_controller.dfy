/** TestCaseGenerationController: recovering the generated artifact from the
    service's reply, and turning the UI's three check boxes into the
    comma-joined test-type string handed to the manual-test generator. */
module TestCaseGenerationController {
  import opened JavaStrings
  import LLMTestCaseGenerator

  /** The node that `path("message").path("content")` reaches inside the first
      choice: absent (Jackson's missing node), an explicit JSON null, or a value
      whose `asText()` rendering is `text`. */
  datatype ContentNode = MissingNode | NullNode | TextNode(text: string)

  datatype Choice = Choice(content: ContentNode)

  /** What `path("choices")` reaches in the parsed document. */
  datatype ChoicesNode = Absent | NotArray | Array(items: seq<Choice>)

  /** A reply body after `readTree`: it failed to parse (or was null), or it is
      a document. */
  datatype Envelope = Malformed | Document(choices: ChoicesNode)

  const JsonFence := "```json"
  const Fence := "```"
  const PackageToken := "package"

  /** JsonNode.asText: "" for a missing node, "null" for a JSON null. */
  function AsText(n: ContentNode): string {
    match n
    case MissingNode => ""
    case NullNode => "null"
    case TextNode(t) => t
  }

  /** The first "```" at or after an opening "```json" cannot begin inside
      that opener, so `substring(start + 7, end)` never receives bounds in the
      wrong order. */
  lemma FenceBoundsSafe(c: string, start: int, end: int)
    requires OccursAt(c, JsonFence, start) && OccursAt(c, Fence, end) && end > start
    ensures end >= start + |JsonFence|
  {
    assert c[start..start + 7] == JsonFence;
    assert c[start + 3] == 'j' && c[start + 4] == 's' && c[start + 5] == 'o' && c[start + 6] == 'n';
    assert c[end..end + 3] == Fence;
    assert c[end] == '`' && c[end + 1] == '`' && c[end + 2] == '`';
  }

  /** The payload cut out of one reply content (lines 68-78). */
  function ExtractPayload(raw: string): (r: string)
    ensures NoEdgeSpace(r)
  {
    var content := Trim(raw);
    if Contains(content, JsonFence) then
      var start := IndexOf(content, JsonFence);
      var end := LastIndexOf(content, Fence);
      if start != -1 && end != -1 && end > start then
        FenceBoundsSafe(content, start, end);
        Trim(content[start + |JsonFence|..end])
      else
        content
    else if Contains(content, PackageToken) then
      var index := IndexOf(content, PackageToken);
      Trim(content[index..])
    else
      content
  }

  /** extractTestCases: a parse failure, a missing or non-array `choices`, or
      an empty one yields null, and nothing is raised; otherwise the first
      choice's content is cut down by ExtractPayload. */
  function ExtractTestCases(response: Envelope): (r: Option<string>)
    ensures r.None? <==>
      response.Malformed? || !response.choices.Array? || response.choices.items == []
    ensures r.Some? ==>
      r.value == ExtractPayload(AsText(response.choices.items[0].content)) && NoEdgeSpace(r.value)
  {
    match response
    case Malformed => None
    case Document(choices) =>
      if choices.Array? && |choices.items| > 0 then
        Some(ExtractPayload(AsText(choices.items[0].content)))
      else
        None
  }

  /** A "```json" opener followed somewhere by a "```": the result is the
      trimmed text between the end of the first opener and the start of the
      LAST "```" of the whole content, so later fenced blocks are swallowed. */
  lemma JsonFenceExtracted(raw: string, closing: int)
    requires var c := Trim(raw); Contains(c, JsonFence) && closing > IndexOf(c, JsonFence) && OccursAt(c, Fence, closing)
    ensures var c := Trim(raw);
      var start := IndexOf(c, JsonFence);
      var end := LastIndexOf(c, Fence);
      && start + |JsonFence| <= end
      && OccursAt(c, Fence, end)
      && (forall i :: end < i ==> !OccursAt(c, Fence, i))
      && ExtractPayload(raw) == Trim(c[start + |JsonFence|..end])
  {
    var c := Trim(raw);
    var start := IndexOf(c, JsonFence);
    var end := LastIndexOf(c, Fence);
    assert end >= closing;
    FenceBoundsSafe(c, start, end);
  }

  /** A "```json" opener with no "```" after it: the trimmed content comes
      back unchanged. */
  lemma JsonFenceUnclosed(raw: string)
    requires var c := Trim(raw);
      Contains(c, JsonFence) && forall i :: i > IndexOf(c, JsonFence) ==> !OccursAt(c, Fence, i)
    ensures ExtractPayload(raw) == Trim(raw)
  {
  }

  /** Without a "```json" opener but with "package": the result is the trimmed
      suffix from the first "package", and it starts with "package". */
  lemma PackageExtracted(raw: string)
    requires var c := Trim(raw); !Contains(c, JsonFence) && Contains(c, PackageToken)
    ensures var c := Trim(raw);
      && ExtractPayload(raw) == Trim(c[IndexOf(c, PackageToken)..])
      && StartsWith(ExtractPayload(raw), PackageToken)
  {
    var c := Trim(raw);
    var index := IndexOf(c, PackageToken);
    assert ExtractPayload(raw) == Trim(c[index..]);
    SuffixFromTokenStartsWithIt(c, index);
  }

  /** The trimmed suffix from an occurrence of "package" starts with it. */
  lemma SuffixFromTokenStartsWithIt(c: string, index: int)
    requires OccursAt(c, PackageToken, index)
    ensures StartsWith(Trim(c[index..]), PackageToken)
  {
    assert c[index..][..|PackageToken|] == c[index..index + |PackageToken|];
    TrimKeepsLeadingWord(c[index..], PackageToken);
  }

  /** With neither marker the result is the trimmed content. */
  lemma PlainContentKept(raw: string)
    requires var c := Trim(raw); !Contains(c, JsonFence) && !Contains(c, PackageToken)
    ensures ExtractPayload(raw) == Trim(raw)
  {
  }

  /** Content that is one fenced JSON block yields the block's text with the
      markers and the whitespace around it stripped. */
  lemma SingleFencedBlock(a: string, json: string, b: string)
    requires AllSpace(a) && AllSpace(b) && json != [] && NoEdgeSpace(json)
    ensures ExtractPayload(JsonFence + a + json + b + Fence) == json
  {
    var inner := a + json + b;
    var c := JsonFence + inner + Fence;
    assert c == JsonFence + a + json + b + Fence;
    assert c[0] == '`' && c[|c| - 1] == '`';
    TrimmedIsFixed(c);
    ConcatOccurs("", JsonFence, inner + Fence);
    assert "" + JsonFence + (inner + Fence) == c;
    ConcatOccurs(JsonFence + inner, Fence, "");
    assert JsonFence + inner + Fence + "" == c;
    JsonFenceExtracted(c, |c| - 3);
    assert IndexOf(c, JsonFence) == 0;
    assert LastIndexOf(c, Fence) == |c| - 3;
    ConcatOccurs(JsonFence, inner, Fence);
    assert c[7..|c| - 3] == inner;
    TrimSurrounded(a, json, b);
  }

  /** A reply whose content is "```json\n{\"a\":1}\n```" yields `{"a":1}`
      exactly. */
  lemma FencedJsonExample()
    ensures ExtractTestCases(Document(Array([Choice(TextNode(JsonFence + "\n" + "{\"a\":1}" + "\n" + Fence))])))
      == Some("{\"a\":1}")
  {
    SingleFencedBlock("\n", "{\"a\":1}", "\n");
  }

  /** A reply whose JSON block is followed by a second fenced block: the cut
      runs to the last "```", so the second block ends up inside the
      result. */
  lemma TrailingBlockSwallowed()
    ensures var json := "[1]" + "\n" + Fence + "\n" + "```java" + "\n" + "x";
      ExtractPayload(JsonFence + "\n" + json + "\n" + Fence) == json
  {
    var json := "[1]" + "\n" + Fence + "\n" + "```java" + "\n" + "x";
    SingleFencedBlock("\n", json, "\n");
  }

  /** Prose without a "p" followed by code that starts with its package
      declaration: the code comes back. */
  lemma PackageAfterProse(prose: string, code: string)
    requires StartsWith(code, PackageToken) && NoEdgeSpace(code) && NoEdgeSpace(prose + code)
    requires 'p' !in prose && '`' !in prose + code
    ensures ExtractPayload(prose + code) == code
  {
    var c := prose + code;
    TrimmedIsFixed(c);
    assert c[|prose|..][..|PackageToken|] == code[..|PackageToken|];
    assert OccursAt(c, PackageToken, |prose|);
    forall i | 0 <= i < |prose| ensures !OccursAt(c, PackageToken, i) {
      assert c[i] == prose[i] && prose[i] in prose;
    }
    assert IndexOf(c, PackageToken) == |prose|;
    forall i | 0 <= i < |c| ensures !OccursAt(c, JsonFence, i) {
      assert c[i] in c;
    }
    assert c[|prose|..] == code;
    TrimmedIsFixed(code);
  }

  /** "Here is the code:\npackage automation.tests;\nclass X {}" yields the
      text from "package automation.tests;" on. */
  lemma PackageAfterProseExample()
    ensures ExtractTestCases(Document(Array([Choice(TextNode(
              "Here is the code:\n" + "package automation.tests;\nclass X {}"))])))
      == Some("package automation.tests;\nclass X {}")
  {
    var code := "package automation.tests;\nclass X {}";
    assert code[..7] == PackageToken;
    PackageAfterProse("Here is the code:\n", code);
  }

  /** The UI's check boxes (TestType). */
  datatype TestType = TestType(positive: bool, negative: bool, edge: bool)

  /** The names of the set flags, in the fixed order Positive, Negative, Edge. */
  function SelectedNames(t: TestType): seq<string> {
    (if t.positive then ["Positive"] else [])
    + (if t.negative then ["Negative"] else [])
    + (if t.edge then ["Edge"] else [])
  }

  /** convertTestTypeToString: appends each set flag's name to a builder,
      putting ", " first whenever the builder is already non-empty. */
  method ConvertTestTypeToString(testType: TestType) returns (s: string)
    ensures s == Join(", ", SelectedNames(testType))
    ensures s == "" <==> !testType.positive && !testType.negative && !testType.edge
  {
    var builder := "";
    ghost var names: seq<string> := [];
    if testType.positive {
      JoinSnoc(", ", names, "Positive");
      builder := builder + "Positive";
      names := names + ["Positive"];
    }
    if testType.negative {
      JoinSnoc(", ", names, "Negative");
      if |builder| > 0 { builder := builder + ", "; }
      builder := builder + "Negative";
      names := names + ["Negative"];
    }
    if testType.edge {
      JoinSnoc(", ", names, "Edge");
      if |builder| > 0 { builder := builder + ", "; }
      builder := builder + "Edge";
      names := names + ["Edge"];
    }
    assert names == SelectedNames(testType);
    s := builder;
  }

  /** What the manual-test generator makes of a check-box selection: only a
      lone Negative or a lone Edge box is recognized; any two or more boxes
      form a comma-joined string that falls back to Positive only. */
  lemma SelectionLineInManualGenerator(t: TestType)
    ensures LLMTestCaseGenerator.TestTypeLine(Some(Join(", ", SelectedNames(t)))) ==
      if t == TestType(false, true, false) then "- Include Only Negative tests\n"
      else if t == TestType(false, false, true) then "- Include Only Edge tests\n"
      else "- Include Only Positive tests\n"
  {
    var s := Join(", ", SelectedNames(t));
    if t == TestType(false, true, false) {
      assert s == "Negative";
      assert EqualsIgnoreCase("negative", "Negative");
    } else if t == TestType(false, false, true) {
      assert s == "Edge";
      assert !EqualsIgnoreCase("negative", "Edge");
      assert EqualsIgnoreCase("edge", "Edge");
    } else {
      assert s == "" || s == "Positive" || |s| > 8;
      FirstCharsDiffer("negative", "Positive");
    }
  }
}
