/** LLMTestGenerator: the API-test-code request built from an API description
    and a list of requested test types. */
module LLMTestGenerator {
  import opened JavaStrings
  import opened ChatRequest

  const NoApiAdvisory := "No valid API details to generate test cases."
  const UserLeadIn := "Generate REST API test cases using Rest Assured (Java, TestNG) for the following API specification:\n"

  /** The instructions before the category line. */
  const SystemHead :=
    "You are a helpful assistant that generates Java code for API tests. "
    + "Your response must contain only Java code enclosed in a single code block using triple backticks (```java ... ```). "
    + "- Do not include any additional text explanations. "
    + "- Be a complete and executable Java class. "
    + "- Use only standard and correct imports (e.g., org.testng.Assert, io.restassured.RestAssured). "

  /** The instructions after the category line. */
  const SystemTail :=
    "- Add package as automation.tests "
    + "- Write comments on the code "
    + "- Print output of the API response "
    + "- Generate Java code that is compatible with Java 8 version ONLY "
    + "- Use BeforeMethod of Testng with hardcoded baseURI "
    + "- DO NOT add any assertion other than status code "
    + "- DO NOT use Arrays.stream method in the generated code "
    + "- The generated code should use only the Java methods belonging to RestAssured and TestNG compatible versions "
    + "- If you parse JSON (e.g., new ObjectMapper().readTree(...)), handle or declare any exceptions (throws Exception or try/catch)."

  /** The three names a requested type is capitalized to. */
  const CategoryNames: set<string> := {"Positive", "Negative", "Edge"}

  /** The line for a single category. */
  function OnlyLine(name: string): string {
    "- Include Only " + name + " tests\n"
  }

  /** The capitalized name of a recognized test type, matched ignoring case in
      the order negative, edge, positive; null for anything else, a null entry
      included. */
  function Canonical(t: Option<string>): Option<string> {
    if EqualsIgnoreCaseOrNull("negative", t) then Some("Negative")
    else if EqualsIgnoreCaseOrNull("edge", t) then Some("Edge")
    else if EqualsIgnoreCaseOrNull("positive", t) then Some("Positive")
    else None
  }

  /** What one entry contributes to the filtered list. */
  function Keep(t: Option<string>): seq<string> {
    match Canonical(t)
    case Some(name) => [name]
    case None => []
  }

  /** The filtered list: unrecognized entries dropped, recognized ones
      capitalized, input order and duplicates kept. */
  function Recognized(xs: seq<Option<string>>): seq<string> {
    if xs == [] then [] else Recognized(xs[..|xs| - 1]) + Keep(xs[|xs| - 1])
  }

  /** The line for several categories, given their joined names. */
  function IncludeLine(joined: string): string {
    "- Include " + joined + " tests\n"
  }

  /** The list's entries may be null, except a lone entry, whose
      `toLowerCase()` would throw. */
  predicate LoneEntryPresent(testTypes: Option<seq<Option<string>>>) {
    testTypes.None? || |testTypes.value| != 1 || testTypes.value[0].Some?
  }

  /** testTypeLine (lines 42-72). */
  function CategoryLine(testTypes: Option<seq<Option<string>>>): string
    requires LoneEntryPresent(testTypes)
  {
    if testTypes.None? || testTypes.value == [] then OnlyLine("Positive")
    else if |testTypes.value| == 1 then
      var t := ToLower(testTypes.value[0].value);
      if t == "negative" then OnlyLine("Negative")
      else if t == "edge" then OnlyLine("Edge")
      else OnlyLine("Positive")
    else
      var types := Recognized(testTypes.value);
      if |types| == 1 then OnlyLine(types[0])
      else IncludeLine(Join(" and ", types))
  }

  /** The system message: the fixed instructions with the category line
      inserted between the imports instruction and the package instruction. */
  function SystemContent(testTypeLine: string): string {
    SystemHead + testTypeLine + SystemTail
  }

  /** The user message: the fixed lead-in, then the API details verbatim. */
  function UserPrompt(apiDetails: string): string {
    UserLeadIn + apiDetails
  }

  /** What generateTestCases(apiDetails, testTypes) ends in. */
  function Request(apiDetails: Option<string>, testTypes: Option<seq<Option<string>>>, model: string): Outcome
    requires IsPresent(apiDetails) ==> LoneEntryPresent(testTypes)
  {
    if !IsPresent(apiDetails) then Advisory(NoApiAdvisory)
    else Send(Payload(model, SystemContent(CategoryLine(testTypes)), UserPrompt(apiDetails.value)))
  }

  /** generateTestCases(apiDetails, testTypes): the advisory check, the
      category line (a for loop collecting the capitalized types when two or
      more are given), the two prompts and the payload. */
  method GenerateTestCases(apiDetails: Option<string>, testTypes: Option<seq<Option<string>>>, model: string)
    returns (out: Outcome)
    requires IsPresent(apiDetails) ==> LoneEntryPresent(testTypes)
    ensures out == Request(apiDetails, testTypes, model)
  {
    if apiDetails.None? || apiDetails.value == "" {
      return Advisory(NoApiAdvisory);
    }

    var testTypeLine: string;
    if testTypes.None? || testTypes.value == [] {
      testTypeLine := OnlyLine("Positive");
    } else if |testTypes.value| == 1 {
      var single := ToLower(testTypes.value[0].value);
      if single == "negative" {
        testTypeLine := OnlyLine("Negative");
      } else if single == "edge" {
        testTypeLine := OnlyLine("Edge");
      } else {
        testTypeLine := OnlyLine("Positive");
      }
    } else {
      var xs := testTypes.value;
      var types: seq<string> := [];
      for i := 0 to |xs|
        invariant types == Recognized(xs[..i])
      {
        assert xs[..i + 1][..i] == xs[..i];
        var entry := xs[i];
        if EqualsIgnoreCaseOrNull("negative", entry) {
          types := types + ["Negative"];
        } else if EqualsIgnoreCaseOrNull("edge", entry) {
          types := types + ["Edge"];
        } else if EqualsIgnoreCaseOrNull("positive", entry) {
          types := types + ["Positive"];
        }
      }
      assert xs[..|xs|] == xs;
      if |types| == 1 {
        testTypeLine := OnlyLine(types[0]);
      } else {
        var joined := Join(" and ", types);
        testTypeLine := "- Include " + joined + " tests\n";
      }
    }

    var userPrompt := UserLeadIn + apiDetails.value;
    var systemContent := SystemHead + testTypeLine + SystemTail;
    var payload := BuildPayload(model, systemContent, userPrompt);
    out := Send(payload);
  }

  /** The one-argument generateTestCases: the same call with an empty list,
      which is the same as giving no list at all. */
  method GenerateTestCasesWithoutTypes(apiDetails: Option<string>, model: string) returns (out: Outcome)
    ensures out == Request(apiDetails, Some([]), model)
    ensures out == Request(apiDetails, None, model)
  {
    out := GenerateTestCases(apiDetails, Some([]), model);
  }

  /** A null or empty description returns the advisory and builds no payload;
      any other description builds one. */
  lemma AdvisoryExactlyWithoutDetails(d: Option<string>, testTypes: Option<seq<Option<string>>>, model: string)
    requires IsPresent(d) ==> LoneEntryPresent(testTypes)
    ensures Request(d, testTypes, model).Advisory? <==> !IsPresent(d)
    ensures Request(d, testTypes, model).Advisory? ==>
      Request(d, testTypes, model).message == "No valid API details to generate test cases."
  {
  }

  /** The filter distributes over concatenation: it works entry by entry and
      keeps the order of the input. */
  lemma {:induction false} RecognizedAppend(a: seq<Option<string>>, b: seq<Option<string>>)
    ensures Recognized(a + b) == Recognized(a) + Recognized(b)
    decreases |b|
  {
    if b == [] {
      assert a + b == a;
    } else {
      var init := b[..|b| - 1];
      assert (a + b)[..|a + b| - 1] == a + init;
      RecognizedAppend(a, init);
    }
  }

  /** Every surviving entry is one of the three capitalized names, and there
      are never more survivors than entries. */
  lemma {:induction false} RecognizedNames(xs: seq<Option<string>>)
    ensures |Recognized(xs)| <= |xs|
    ensures forall k :: 0 <= k < |Recognized(xs)| ==> Recognized(xs)[k] in CategoryNames
  {
    if xs != [] {
      RecognizedNames(xs[..|xs| - 1]);
    }
  }

  /** Lists in which nothing is recognized filter to nothing. */
  lemma {:induction false} NothingRecognized(xs: seq<Option<string>>)
    requires forall k :: 0 <= k < |xs| ==> Canonical(xs[k]).None?
    ensures Recognized(xs) == []
  {
    if xs != [] {
      NothingRecognized(xs[..|xs| - 1]);
    }
  }

  /** No list, or an empty one, asks for positive tests only, exactly as the
      list ["positive"] does. */
  lemma DefaultIsPositiveOnly()
    ensures CategoryLine(None) == OnlyLine("Positive")
    ensures CategoryLine(Some([])) == CategoryLine(None)
    ensures CategoryLine(Some([Some("positive")])) == CategoryLine(None)
  {
    assert ToLower("positive") == "positive" by { LowerIsFixed("positive"); }
  }

  /** A single entry is matched ignoring case: negative and edge pick their
      own line; anything else, recognized or not, picks Positive. */
  lemma SingleEntry(t: string)
    ensures CategoryLine(Some([Some(t)])) ==
      if EqualsIgnoreCase(t, "negative") then OnlyLine("Negative")
      else if EqualsIgnoreCase(t, "edge") then OnlyLine("Edge")
      else OnlyLine("Positive")
  {
    EqualsIgnoreCaseIsLowerEquality(t, "negative");
    EqualsIgnoreCaseIsLowerEquality(t, "edge");
    assert ToLower("negative") == "negative" by { LowerIsFixed("negative"); }
    assert ToLower("edge") == "edge" by { LowerIsFixed("edge"); }
  }

  /** The filtered list of a short list, entry by entry. */
  lemma RecognizedShort(a: Option<string>, b: Option<string>, c: Option<string>)
    ensures Recognized([a]) == Keep(a)
    ensures Recognized([a, b]) == Keep(a) + Keep(b)
    ensures Recognized([a, b, c]) == Keep(a) + Keep(b) + Keep(c)
  {
    assert [a][..0] == [];
    assert [a, b][..1] == [a];
    assert [a, b, c][..2] == [a, b];
  }

  /** Two or more entries: the line is built from the filtered list. */
  lemma ManyEntries(xs: seq<Option<string>>)
    requires |xs| >= 2
    ensures var types := Recognized(xs);
      CategoryLine(Some(xs)) ==
        if |types| == 1 then OnlyLine(types[0]) else IncludeLine(Join(" and ", types))
  {
  }

  /** Two recognized entries are joined with " and " in the order given. */
  lemma TwoRecognized(a: Option<string>, b: Option<string>)
    requires Canonical(a).Some? && Canonical(b).Some?
    ensures CategoryLine(Some([a, b])) == IncludeLine(Canonical(a).value + " and " + Canonical(b).value)
  {
    var x, y := Canonical(a).value, Canonical(b).value;
    RecognizedShort(a, b, b);
    assert Recognized([a, b]) == [x, y];
    ManyEntries([a, b]);
    JoinShort(" and ", x, y, y);
  }

  /** Three recognized entries are joined with " and " in the order given. */
  lemma ThreeRecognized(a: Option<string>, b: Option<string>, c: Option<string>)
    requires Canonical(a).Some? && Canonical(b).Some? && Canonical(c).Some?
    ensures CategoryLine(Some([a, b, c])) ==
      IncludeLine(Canonical(a).value + " and " + Canonical(b).value + " and " + Canonical(c).value)
  {
    var x, y, z := Canonical(a).value, Canonical(b).value, Canonical(c).value;
    RecognizedShort(a, b, c);
    assert Recognized([a, b, c]) == [x, y, z];
    ManyEntries([a, b, c]);
    JoinShort(" and ", x, y, z);
  }

  /** With two or more entries that are all unrecognized, the join is empty and
      the line reads "- Include  tests". */
  lemma NoSurvivors(xs: seq<Option<string>>)
    requires |xs| >= 2 && forall k :: 0 <= k < |xs| ==> Canonical(xs[k]).None?
    ensures CategoryLine(Some(xs)) == IncludeLine("")
  {
    NothingRecognized(xs);
  }

  /** With two or more entries of which exactly one is recognized, the line
      names only that one. */
  lemma OneSurvivor(xs: seq<Option<string>>, i: nat)
    requires |xs| >= 2 && i < |xs| && Canonical(xs[i]).Some?
    requires forall k :: 0 <= k < |xs| && k != i ==> Canonical(xs[k]).None?
    ensures CategoryLine(Some(xs)) == OnlyLine(Canonical(xs[i]).value)
  {
    assert xs == xs[..i] + [xs[i]] + xs[i + 1..];
    RecognizedAppend(xs[..i] + [xs[i]], xs[i + 1..]);
    RecognizedAppend(xs[..i], [xs[i]]);
    NothingRecognized(xs[..i]);
    NothingRecognized(xs[i + 1..]);
    assert Recognized([xs[i]]) == Keep(xs[i]) by { assert [xs[i]][..0] == []; }
  }

  /** All three types, in any case, are joined in input order. */
  lemma ThreeTypesExample()
    ensures CategoryLine(Some([Some("positive"), Some("NEGATIVE"), Some("Edge")]))
      == IncludeLine("Positive" + " and " + "Negative" + " and " + "Edge")
  {
    assert Canonical(Some("positive")) == Some("Positive") by {
      FirstCharsDiffer("negative", "positive");
      FirstCharsDiffer("edge", "positive");
      assert EqualsIgnoreCase("positive", "positive");
    }
    assert Canonical(Some("NEGATIVE")) == Some("Negative") by { assert EqualsIgnoreCase("negative", "NEGATIVE"); }
    assert Canonical(Some("Edge")) == Some("Edge") by {
      assert !EqualsIgnoreCase("negative", "Edge") && EqualsIgnoreCase("edge", "Edge");
    }
    ThreeRecognized(Some("positive"), Some("NEGATIVE"), Some("Edge"));
  }

  /** A repeated type is kept twice. */
  lemma DuplicateKeptExample()
    ensures CategoryLine(Some([Some("edge"), Some("EDGE")])) == IncludeLine("Edge" + " and " + "Edge")
  {
    assert Canonical(Some("edge")) == Some("Edge") by {
      assert !EqualsIgnoreCase("negative", "edge") && EqualsIgnoreCase("edge", "edge");
    }
    assert Canonical(Some("EDGE")) == Some("Edge") by {
      assert !EqualsIgnoreCase("negative", "EDGE") && EqualsIgnoreCase("edge", "EDGE");
    }
    TwoRecognized(Some("edge"), Some("EDGE"));
  }

  /** A null entry in a list of two or more contributes nothing: the filter
      over the list is the filter over the list without it. */
  lemma NullEntryDropped(a: seq<Option<string>>, b: seq<Option<string>>)
    ensures Keep(None) == []
    ensures Recognized(a + [None] + b) == Recognized(a + b)
  {
    var withNull := a + [None];
    assert withNull[..|withNull| - 1] == a;
    assert Recognized(withNull) == Recognized(a) + Keep(None);
    RecognizedAppend(withNull, b);
    RecognizedAppend(a, b);
  }

  /** A null beside "positive" leaves positive tests only. */
  lemma NullBesidePositiveExample()
    ensures CategoryLine(Some([Some("positive"), None])) == OnlyLine("Positive")
  {
    assert Canonical(Some("positive")) == Some("Positive") by {
      FirstCharsDiffer("negative", "positive");
      FirstCharsDiffer("edge", "positive");
      assert EqualsIgnoreCase("positive", "positive");
    }
    OneSurvivor([Some("positive"), None], 0);
  }

  /** A null between two recognized entries drops out of the join. */
  lemma NullBetweenExample()
    ensures CategoryLine(Some([Some("edge"), None, Some("negative")])) == IncludeLine("Edge" + " and " + "Negative")
  {
    assert Canonical(Some("edge")) == Some("Edge") by {
      assert !EqualsIgnoreCase("negative", "edge") && EqualsIgnoreCase("edge", "edge");
    }
    assert Canonical(Some("negative")) == Some("Negative") by { assert EqualsIgnoreCase("negative", "negative"); }
    NullEntryDropped([Some("edge")], [Some("negative")]);
    assert [Some("edge")] + [None] + [Some("negative")] == [Some("edge"), None, Some("negative")];
    assert [Some("edge")] + [Some("negative")] == [Some("edge"), Some("negative")];
    RecognizedShort(Some("edge"), Some("negative"), None);
    ManyEntries([Some("edge"), None, Some("negative")]);
    JoinShort(" and ", "Edge", "Negative", "Negative");
  }

  /** The category line sits verbatim right after the fixed head of the system
      message, and the system message determines it. */
  lemma SystemContentEmbedsLine(line: string, other: string)
    ensures OccursAt(SystemContent(line), line, |SystemHead|)
    ensures SystemContent(line) == SystemContent(other) ==> line == other
  {
    ConcatOccurs(SystemHead, line, SystemTail);
    ConcatOccurs(SystemHead, other, SystemTail);
  }

  /** The user message is the lead-in followed by the details, unchanged. */
  lemma UserPromptCarriesDetails(d: string)
    ensures StartsWith(UserPrompt(d), UserLeadIn)
    ensures UserPrompt(d)[|UserLeadIn|..] == d
  {
    ConcatStartsWith(UserLeadIn, d);
  }

  /** Every payload carries the model, the system message first, the user
      message second, temperature 0.1, top_p 0.2 and max_tokens 10000. */
  lemma PayloadFields(d: Option<string>, testTypes: Option<seq<Option<string>>>, model: string)
    requires IsPresent(d) && LoneEntryPresent(testTypes)
    ensures var p := Request(d, testTypes, model).payload;
      && p.Keys == PayloadKeys
      && p["model"] == Text(model)
      && p["messages"].messages == [map["role" := "system", "content" := SystemContent(CategoryLine(testTypes))],
                                    map["role" := "user", "content" := UserLeadIn + d.value]]
      && p["temperature"] == Decimal(0.1) && p["top_p"] == Decimal(0.2)
      && p["max_tokens"] == Integer(10000)
  {
  }
}
