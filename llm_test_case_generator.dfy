/** LLMTestCaseGenerator: the manual-test-case request built from a user
    story. */
module LLMTestCaseGenerator {
  import opened JavaStrings
  import opened ChatRequest

  const NoStoryAdvisory := "No valid user story description to generate test cases."
  const StoryLeadIn := "Generate test cases for the following user story description:\n"
  const UrlLabel := "\nApplication URL: "
  const CriteriaLabel := "\nAcceptance Criteria: "
  const EpicLabel := "\nEpic Description: "

  /** The instructions that precede the JSON example in the system message. */
  const SystemIntro :=
    "You are a helpful assistant that generates **manual test cases** for a user story.\n"
    + "Your response must contain only test case steps written in plain English, with clear instructions.\n"
    + "Do not include any code or automated test steps. Write them in a step-by-step format.\n\n"
    + "- Each test case should cover different scenarios like positive, negative, and edge cases.\n"
    + "- Include appropriate preconditions, actions, and expected results for each test case.\n"
    + "- The test cases should be comprehensive, covering all possible conditions for the user story.\n"
    + "- Provide test case IDs for easy reference.\n"
    + "- The test cases should be applicable for manual testing, no automation details should be included.\n"
    + "- Write the test case steps as actions to be performed manually by the tester.\n\n"
    + "**[IMPORTANT]**\n"
    + "Your response should be in **structured JSON format** as shown below:\n\n"

  /** The first of the two example records. */
  const ExampleCase1 :=
    "    {\n"
    + "      \"TC_No\": \"TC001\",\n"
    + "      \"Test_Case_Description\": \"Verify login with valid credentials\",\n"
    + "      \"Pre-requisites\": \"User must have valid credentials\",\n"
    + "      \"Test_Steps\": \"1. Open login page\\n2. Enter valid username\\n3. Enter valid password\\n4. Click on Login\",\n"
    + "      \"Actual_Result\": \"User is successfully logged in\",\n"
    + "      \"Expected_Result\": \"User should be logged in successfully\",\n"
    + "      \"Status\": \"Pending\"\n"
    + "    }"

  /** The second of the two example records. */
  const ExampleCase2 :=
    "    {\n"
    + "      \"TC_No\": \"TC002\",\n"
    + "      \"Test_Case_Description\": \"Verify login with invalid credentials\",\n"
    + "      \"Pre-requisites\": \"User must have an invalid set of credentials\",\n"
    + "      \"Test_Steps\": \"1. Open login page\\n2. Enter invalid username\\n3. Enter invalid password\\n4. Click on Login\",\n"
    + "      \"Actual_Result\": \"Error message displayed\",\n"
    + "      \"Expected_Result\": \"User should receive an error message\",\n"
    + "      \"Status\": \"Pending\"\n"
    + "    }"

  const SchemaOpen := "{\n  \"testCases\": [\n"
  const SchemaClose := "\n  ]\n}"

  /** The `{"testCases": [...]}` example embedded in the instructions. */
  const SchemaExample := SchemaOpen + ExampleCase1 + ",\n" + ExampleCase2 + SchemaClose

  /** The system message: one fixed text, the same for every request. */
  const SystemContent := SystemIntro + SchemaExample

  /** testTypeLine (lines 40-49). It is computed, but no message uses it. */
  function TestTypeLine(testType: Option<string>): string {
    if !IsPresent(testType) then "- Include Only Positive tests\n"
    else if EqualsIgnoreCase("negative", testType.value) then "- Include Only Negative tests\n"
    else if EqualsIgnoreCase("edge", testType.value) then "- Include Only Edge tests\n"
    else "- Include Only Positive tests\n"
  }

  /** The user prompt without the optional epic line. */
  function StoryPrompt(description: string, applicationUrl: Option<string>, acceptanceCriteria: Option<string>): string {
    StoryLeadIn + description + UrlLabel + Render(applicationUrl) + CriteriaLabel + Render(acceptanceCriteria)
  }

  /** The user prompt: the story prompt, then the epic line when an epic is
      given. */
  function UserPrompt(description: string, applicationUrl: Option<string>, acceptanceCriteria: Option<string>,
                      epicDescription: Option<string>): string {
    StoryPrompt(description, applicationUrl, acceptanceCriteria)
    + (if IsPresent(epicDescription) then EpicLabel + epicDescription.value else "")
  }

  /** What llmGenerateTestCases ends in, for every testType. */
  function Request(userStoryDescription: Option<string>, applicationUrl: Option<string>,
                   acceptanceCriteria: Option<string>, epicDescription: Option<string>, model: string): Outcome {
    if !IsPresent(userStoryDescription) then Advisory(NoStoryAdvisory)
    else Send(Payload(model, SystemContent,
                      UserPrompt(userStoryDescription.value, applicationUrl, acceptanceCriteria, epicDescription)))
  }

  /** llmGenerateTestCases. Its contract does not mention `testType`: the
      request is the same whatever test type is asked for. */
  method LlmGenerateTestCases(testType: Option<string>, userStoryDescription: Option<string>,
                              applicationUrl: Option<string>, acceptanceCriteria: Option<string>,
                              epicDescription: Option<string>, model: string)
    returns (out: Outcome)
    ensures out == Request(userStoryDescription, applicationUrl, acceptanceCriteria, epicDescription, model)
  {
    if userStoryDescription.None? || userStoryDescription.value == "" {
      return Advisory(NoStoryAdvisory);
    }

    var testTypeLine := TestTypeLine(testType);

    var userPrompt := StoryLeadIn + userStoryDescription.value
      + UrlLabel + Render(applicationUrl)
      + CriteriaLabel + Render(acceptanceCriteria);
    ghost var story := userPrompt;

    if epicDescription.Some? && epicDescription.value != "" {
      userPrompt := userPrompt + (EpicLabel + epicDescription.value);
    } else {
      assert userPrompt == story + "";
    }

    var payload := BuildPayload(model, SystemContent, userPrompt);
    out := Send(payload);
  }

  /** The four-argument generateTestCases: the same call with testType
      "positive". */
  method GenerateTestCases(userStoryDescription: Option<string>, applicationUrl: Option<string>,
                           acceptanceCriteria: Option<string>, epicDescription: Option<string>, model: string)
    returns (out: Outcome)
    ensures out == Request(userStoryDescription, applicationUrl, acceptanceCriteria, epicDescription, model)
  {
    out := LlmGenerateTestCases(Some("positive"), userStoryDescription, applicationUrl,
                                acceptanceCriteria, epicDescription, model);
  }

  /** A null or empty description returns the advisory and builds no payload;
      any other description builds one. */
  lemma AdvisoryExactlyWithoutStory(d: Option<string>, url: Option<string>, criteria: Option<string>,
                                    epic: Option<string>, model: string)
    ensures Request(d, url, criteria, epic, model).Advisory? <==> !IsPresent(d)
    ensures Request(d, url, criteria, epic, model).Advisory? ==>
      Request(d, url, criteria, epic, model).message == "No valid user story description to generate test cases."
  {
  }

  /** The line picked for the test type: Only Positive for null or empty, the
      named type when the whole lower-cased string is "negative" or "edge",
      and Only Positive for everything else. */
  lemma TestTypeLineCases(t: Option<string>)
    ensures !IsPresent(t) ==> TestTypeLine(t) == "- Include Only Positive tests\n"
    ensures IsPresent(t) && ToLower(t.value) == "negative" ==> TestTypeLine(t) == "- Include Only Negative tests\n"
    ensures IsPresent(t) && ToLower(t.value) == "edge" ==> TestTypeLine(t) == "- Include Only Edge tests\n"
    ensures IsPresent(t) && ToLower(t.value) != "negative" && ToLower(t.value) != "edge" ==>
      TestTypeLine(t) == "- Include Only Positive tests\n"
  {
    if IsPresent(t) {
      assert ToLower("negative") == "negative" by { LowerIsFixed("negative"); }
      assert ToLower("edge") == "edge" by { LowerIsFixed("edge"); }
      EqualsIgnoreCaseIsLowerEquality("negative", t.value);
      EqualsIgnoreCaseIsLowerEquality("edge", t.value);
    }
  }

  /** A string of any length other than those of "negative" and "edge" reads
      as Only Positive; comma-joined selections such as "Positive, Negative"
      are among them. */
  lemma OtherLengthIsPositive(t: string)
    requires |t| != 8 && |t| != 4
    ensures TestTypeLine(Some(t)) == "- Include Only Positive tests\n"
    ensures TestTypeLine(Some("Positive, Negative")) == TestTypeLine(Some("Negative, Edge")) == TestTypeLine(Some(t))
  {
  }

  /** The case of the letters does not matter: "NEGATIVE" is negative. */
  lemma NegativeInCapitals()
    ensures TestTypeLine(Some("NEGATIVE")) == "- Include Only Negative tests\n"
  {
    assert EqualsIgnoreCase("negative", "NEGATIVE");
  }

  /** "Edge" is edge. */
  lemma EdgeCapitalized()
    ensures TestTypeLine(Some("Edge")) == "- Include Only Edge tests\n"
  {
    assert !EqualsIgnoreCase("negative", "Edge");
    assert EqualsIgnoreCase("edge", "Edge");
  }

  /** The user prompt starts with the lead-in and the description verbatim,
      followed by the URL line; a null URL reads "null". */
  lemma UserPromptStartsWithStory(d: string, url: Option<string>, criteria: Option<string>, epic: Option<string>)
    ensures var p := UserPrompt(d, url, criteria, epic);
      && StartsWith(p, StoryLeadIn + d + UrlLabel + Render(url))
      && OccursAt(p, d, |StoryLeadIn|)
      && (url.None? ==> StartsWith(p, StoryLeadIn + d + UrlLabel + "null"))
  {
    var head := StoryLeadIn + d + UrlLabel + Render(url);
    var story := StoryPrompt(d, url, criteria);
    var extra := if IsPresent(epic) then EpicLabel + epic.value else "";
    ConcatStartsWith(head, CriteriaLabel);
    StartsWithAppend(head + CriteriaLabel, head, Render(criteria));
    StartsWithAppend(story, head, extra);
    ConcatOccursEnd(StoryLeadIn, d);
    OccursAtAppend(StoryLeadIn + d, d, |StoryLeadIn|, UrlLabel);
    OccursAtAppend(StoryLeadIn + d + UrlLabel, d, |StoryLeadIn|, Render(url));
    OccursAtAppend(head, d, |StoryLeadIn|, CriteriaLabel);
    OccursAtAppend(head + CriteriaLabel, d, |StoryLeadIn|, Render(criteria));
    OccursAtAppend(story, d, |StoryLeadIn|, extra);
  }

  /** The epic line is appended if and only if the epic is non-null and
      non-empty; otherwise the prompt ends with the acceptance criteria. */
  lemma EpicAppendedIffPresent(d: string, url: Option<string>, criteria: Option<string>, epic: Option<string>)
    ensures IsPresent(epic) ==>
      UserPrompt(d, url, criteria, epic) == StoryPrompt(d, url, criteria) + EpicLabel + epic.value
    ensures !IsPresent(epic) ==> UserPrompt(d, url, criteria, epic) == StoryPrompt(d, url, criteria)
    ensures !IsPresent(epic) ==>
      var p := UserPrompt(d, url, criteria, epic);
      var c := CriteriaLabel + Render(criteria);
      |c| <= |p| && p[|p| - |c|..] == c
    ensures UserPrompt(d, url, criteria, epic) == UserPrompt(d, url, criteria, None) <==> !IsPresent(epic)
  {
    var s := StoryPrompt(d, url, criteria);
    assert UserPrompt(d, url, criteria, None) == s + "" == s;
    if IsPresent(epic) {
      assert |UserPrompt(d, url, criteria, epic)| > |s|;
    } else {
      var c := CriteriaLabel + Render(criteria);
      var head := StoryLeadIn + d + UrlLabel + Render(url);
      assert s == head + c;
      assert UserPrompt(d, url, criteria, epic) == s + "" == s;
    }
  }

  /** The fixed system message ends with the `{"testCases": [...]}` example,
      right after the instructions. */
  lemma SystemContentHoldsExample()
    ensures OccursAt(SystemContent, SchemaExample, |SystemIntro|)
  {
    ConcatOccursEnd(SystemIntro, SchemaExample);
  }

  /** The example holds its two records in order, separated by ",\n". */
  lemma SchemaExampleHoldsRecords()
    ensures OccursAt(SchemaExample, ExampleCase1, |SchemaOpen|)
    ensures OccursAt(SchemaExample, ExampleCase2, |SchemaOpen| + |ExampleCase1| + 2)
  {
    var beforeSecond := SchemaOpen + ExampleCase1 + ",\n";
    ConcatOccursEnd(SchemaOpen, ExampleCase1);
    OccursAtAppend(SchemaOpen + ExampleCase1, ExampleCase1, |SchemaOpen|, ",\n");
    OccursAtAppend(beforeSecond, ExampleCase1, |SchemaOpen|, ExampleCase2);
    OccursAtAppend(beforeSecond + ExampleCase2, ExampleCase1, |SchemaOpen|, SchemaClose);
    ConcatOccursEnd(beforeSecond, ExampleCase2);
    OccursAtAppend(beforeSecond + ExampleCase2, ExampleCase2, |beforeSecond|, SchemaClose);
  }

  /** Every payload carries the model, the fixed system message first, the
      user prompt second, temperature 0.1, top_p 0.2 and max_tokens 10000. */
  lemma PayloadFields(d: Option<string>, url: Option<string>, criteria: Option<string>,
                      epic: Option<string>, model: string)
    requires IsPresent(d)
    ensures var p := Request(d, url, criteria, epic, model).payload;
      && p.Keys == PayloadKeys
      && p["model"] == Text(model)
      && p["messages"].messages == [map["role" := "system", "content" := SystemContent],
                                    map["role" := "user", "content" := UserPrompt(d.value, url, criteria, epic)]]
      && p["temperature"] == Decimal(0.1) && p["top_p"] == Decimal(0.2)
      && p["max_tokens"] == Integer(10000)
  {
  }
}
