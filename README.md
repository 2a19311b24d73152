# A model of the test-generation text pipeline

This project models the text-processing core of a small Spring service. The service asks a
chat-completion service for test artifacts and turns the answers into something a user can use.
The model covers four parts:

- **API-test request** (`LLMTestGenerator`). A list of requested test types becomes one
  "category line" in the system message. Entries are matched ignoring case, filtered, capitalized
  and joined with " and ". The user message is a fixed lead-in followed by the API description.
  Both go into a payload map with fixed sampling parameters.
- **Manual-test request** (`LLMTestCaseGenerator`). A user story, URL, acceptance criteria and an
  optional epic are concatenated into the user message. The system message is one fixed text with a
  two-record JSON example. The test-type line is computed but never used, so the request does not
  depend on the test type.
- **Reply extraction** (`TestCaseGenerationController`). The first choice's content is trimmed. It
  is then cut to the text between the first "```json" and the last "```", or else to the suffix
  from the first "package", or else kept whole. The same file turns the UI's three check boxes
  into a comma-joined string.
- **Spreadsheet rows** (`TestCaseExcelConvertor`). A header row and one row per test-case record.
  Null fields become "", and the Actual_Result column is always empty.

Java `null` is modelled as `Option`. The `java.lang.String` operations the code uses live in
`JavaStrings` as specified functions: trim, indexOf, lastIndexOf, contains, toLowerCase,
equalsIgnoreCase and join. The payload map shared by both generators lives in `ChatRequest`.

Each generator has two halves. A pure function, `Request`, says what the call ends in. An
imperative method mirrors the Java, with the `for` loop, the `+=` and the `put`/`add` calls, and
proves that it ends in `Request`. The lemmas then state the promised properties about `Request`.

Three facts about the code shape the model:

- Several requested types are joined with " and " in input order, duplicates kept, so the line for
  all three is "- Include Positive and Negative and Edge tests\n" when they are given in that order.
- The manual-test request carries no category line: its test-type line is computed and then unused.
- `max_tokens` is 10000 in both generators.

## Model

| member | source | states |
|---|---|---|
| JavaStrings.Trim | src/main/java/com/testleaf/controller/TestCaseGenerationController.java:68 | trim leaves no character <= ' ' at either end and never lengthens; TrimStart/TrimEnd drop exactly the leading or trailing such characters |
| JavaStrings.TrimIsInfix | src/main/java/com/testleaf/controller/TestCaseGenerationController.java:68 | the trimmed text is the infix of the input that starts where the leading characters <= ' ' end, with only characters <= ' ' before it and after it |
| JavaStrings.TrimIdempotent | src/main/java/com/testleaf/controller/TestCaseGenerationController.java:73 | trimming the already trimmed content again changes nothing |
| JavaStrings.IndexOf | src/main/java/com/testleaf/controller/TestCaseGenerationController.java:70 | -1 exactly when the pattern occurs nowhere; otherwise an occurrence with none before it |
| JavaStrings.LastIndexOf | src/main/java/com/testleaf/controller/TestCaseGenerationController.java:71 | -1 exactly when the pattern occurs nowhere; otherwise an occurrence with none after it |
| JavaStrings.Contains | src/main/java/com/testleaf/controller/TestCaseGenerationController.java:69 | true exactly when the pattern occurs somewhere |
| JavaStrings.ToLower | src/main/java/com/testleaf/llm/LLMTestGenerator.java:46 | toLowerCase keeps the length and lower-cases each character in place (ASCII letters) |
| JavaStrings.EqualsIgnoreCase | src/main/java/com/testleaf/llm/LLMTestGenerator.java:58 | equalsIgnoreCase holds when the lengths agree and every position agrees after case mapping; EqualsIgnoreCaseIsLowerEquality ties it to comparing the lower-cased strings, and FirstCharsDiffer gives the mismatch on a first character |
| JavaStrings.Join | src/main/java/com/testleaf/llm/LLMTestGenerator.java:69 | String.join begins with the first part; JoinShort spells out two and three parts and JoinSnoc the append of one more |
| JavaStrings.JoinLength | src/main/java/com/testleaf/llm/LLMTestGenerator.java:69 | a join is as long as all parts together plus one separator between each two |
| JavaStrings.EqualsIgnoreCaseIsLowerEquality | src/main/java/com/testleaf/llm/LLMTestGenerator.java:46-47 | for the ASCII case mapping, equalsIgnoreCase agrees with comparing the lower-cased strings |
| JavaStrings.TrimSurrounded | src/main/java/com/testleaf/controller/TestCaseGenerationController.java:73 | trim removes exactly the whitespace around a text with no whitespace at its own ends |
| ChatRequest.BuildPayload | src/main/java/com/testleaf/llm/LLMTestGenerator.java:83-119 | the put/add sequence leaves exactly the keys model, messages, temperature, top_p, max_tokens with the model, [system, user] messages, 0.1, 0.2 and 10000 |
| ChatRequest.MessagesInOrder | src/main/java/com/testleaf/llm/LLMTestGenerator.java:83-111 | two messages, system first and user second, each with exactly a role and a content |
| TestCaseGenerationController.FenceBoundsSafe | src/main/java/com/testleaf/controller/TestCaseGenerationController.java:70-73 | a "```" found after a "```json" starts at least 7 characters after it, so the substring bounds are in order |
| TestCaseGenerationController.AsText | src/main/java/com/testleaf/controller/TestCaseGenerationController.java:68 | asText on the content node: a missing node reads "", a JSON null reads "null", a text node its text; ExtractTestCases applies it to the first choice's content |
| TestCaseGenerationController.ExtractPayload | src/main/java/com/testleaf/controller/TestCaseGenerationController.java:68-78 | the cut content never has whitespace at either end |
| TestCaseGenerationController.ExtractTestCases | src/main/java/com/testleaf/controller/TestCaseGenerationController.java:60-84 | null exactly when the reply is malformed, or choices is missing, not an array or empty, with nothing raised; otherwise the first choice's content, cut and trimmed |
| TestCaseGenerationController.JsonFenceExtracted | src/main/java/com/testleaf/controller/TestCaseGenerationController.java:69-74 | with a "```" after the first "```json", the result is the trimmed text between the end of that opener and the last "```" |
| TestCaseGenerationController.JsonFenceUnclosed | src/main/java/com/testleaf/controller/TestCaseGenerationController.java:69-72 | with no "```" after the opener, the trimmed content comes back unchanged |
| TestCaseGenerationController.PackageExtracted | src/main/java/com/testleaf/controller/TestCaseGenerationController.java:75-77 | without "```json" but with "package", the result is the trimmed suffix from the first "package" and starts with "package" |
| TestCaseGenerationController.SuffixFromTokenStartsWithIt | src/main/java/com/testleaf/controller/TestCaseGenerationController.java:76-77 | the trimmed suffix from an occurrence of "package" starts with "package" |
| TestCaseGenerationController.PlainContentKept | src/main/java/com/testleaf/controller/TestCaseGenerationController.java:68-78 | with neither marker, the result is the trimmed content |
| TestCaseGenerationController.SingleFencedBlock | src/main/java/com/testleaf/controller/TestCaseGenerationController.java:68-74 | one fenced block with whitespace around its text yields exactly that text |
| TestCaseGenerationController.FencedJsonExample | src/main/java/com/testleaf/controller/TestCaseGenerationController.java:60-84 | a reply whose content is a fenced `{"a":1}` yields `{"a":1}` |
| TestCaseGenerationController.TrailingBlockSwallowed | src/main/java/com/testleaf/controller/TestCaseGenerationController.java:69-74 | a second fenced block after the JSON block ends up inside the result, because the cut runs to the last "```" |
| TestCaseGenerationController.PackageAfterProse | src/main/java/com/testleaf/controller/TestCaseGenerationController.java:75-77 | prose with no "p", followed by code that starts with "package", with no backtick anywhere in prose or code and no whitespace at either end of the code or of the whole content, yields the code |
| TestCaseGenerationController.PackageAfterProseExample | src/main/java/com/testleaf/controller/TestCaseGenerationController.java:60-84 | "Here is the code:" followed by a package declaration yields the code from "package" on |
| TestCaseGenerationController.ConvertTestTypeToString | src/main/java/com/testleaf/controller/TestCaseGenerationController.java:167-181 | the builder ends as exactly the set flags' names in the order Positive, Negative, Edge, joined with ", "; "" exactly when no flag is set |
| TestCaseGenerationController.SelectionLineInManualGenerator | src/main/java/com/testleaf/llm/LLMTestCaseGenerator.java:41-49 | of all check-box selections, only a lone Negative or a lone Edge is recognized by the manual generator; every other selection reads as Positive |
| LLMTestGenerator.CategoryLine | src/main/java/com/testleaf/llm/LLMTestGenerator.java:42-72 | the category line: null or empty list Only Positive; one entry by its lower case; two or more through the filtered list (one survivor Only X, else the " and " join); a lone entry must be non-null, the list's other entries may be null; its cases are the lemmas below |
| LLMTestGenerator.Request | src/main/java/com/testleaf/llm/LLMTestGenerator.java:31-131 | what generateTestCases ends in: the advisory for null or empty details, otherwise a payload whose system message holds `CategoryLine` of the list and whose user message is the lead-in plus the details |
| LLMTestGenerator.GenerateTestCases | src/main/java/com/testleaf/llm/LLMTestGenerator.java:31-131 | the advisory check, the category-line branches, the filtering loop (a null entry fails every equalsIgnoreCase), the prompts and the payload end in `Request` |
| LLMTestGenerator.GenerateTestCasesWithoutTypes | src/main/java/com/testleaf/llm/LLMTestGenerator.java:134-136 | the one-argument overload equals passing an empty list, and equals passing a null list |
| LLMTestGenerator.AdvisoryExactlyWithoutDetails | src/main/java/com/testleaf/llm/LLMTestGenerator.java:32-33 | the advisory "No valid API details to generate test cases." comes back exactly when the details are null or empty, and then no payload is built |
| LLMTestGenerator.DefaultIsPositiveOnly | src/main/java/com/testleaf/llm/LLMTestGenerator.java:43-44 | a null or empty list gives "- Include Only Positive tests\n", as does ["positive"] |
| LLMTestGenerator.SingleEntry | src/main/java/com/testleaf/llm/LLMTestGenerator.java:45-53 | a single entry equal to "negative" or "edge" ignoring case picks that line; anything else picks Only Positive |
| LLMTestGenerator.RecognizedAppend | src/main/java/com/testleaf/llm/LLMTestGenerator.java:57-65 | the filter works entry by entry: filtering a concatenation concatenates the filtered parts, so input order and duplicates are kept |
| LLMTestGenerator.RecognizedNames | src/main/java/com/testleaf/llm/LLMTestGenerator.java:57-65 | every survivor is Positive, Negative or Edge, and there are never more survivors than entries |
| LLMTestGenerator.NothingRecognized | src/main/java/com/testleaf/llm/LLMTestGenerator.java:57-65 | a list with no recognized entry filters to nothing |
| LLMTestGenerator.RecognizedShort | src/main/java/com/testleaf/llm/LLMTestGenerator.java:57-65 | the filtered list of one, two or three entries is their contributions in order |
| LLMTestGenerator.ManyEntries | src/main/java/com/testleaf/llm/LLMTestGenerator.java:54-71 | with two or more entries the line depends only on the filtered list: one survivor gives Only X, otherwise the " and " join |
| LLMTestGenerator.TwoRecognized | src/main/java/com/testleaf/llm/LLMTestGenerator.java:66-71 | two recognized entries give "- Include A and B tests\n" in input order |
| LLMTestGenerator.ThreeRecognized | src/main/java/com/testleaf/llm/LLMTestGenerator.java:66-71 | three recognized entries give "- Include A and B and C tests\n" in input order |
| LLMTestGenerator.NoSurvivors | src/main/java/com/testleaf/llm/LLMTestGenerator.java:66-71 | two or more entries with none recognized give the join of nothing, "- Include  tests\n" |
| LLMTestGenerator.OneSurvivor | src/main/java/com/testleaf/llm/LLMTestGenerator.java:66-67 | two or more entries with exactly one recognized give Only that one |
| LLMTestGenerator.ThreeTypesExample | src/main/java/com/testleaf/llm/LLMTestGenerator.java:55-71 | ["positive", "NEGATIVE", "Edge"] gives "- Include Positive and Negative and Edge tests\n" |
| LLMTestGenerator.DuplicateKeptExample | src/main/java/com/testleaf/llm/LLMTestGenerator.java:55-71 | ["edge", "EDGE"] gives "- Include Edge and Edge tests\n": the duplicate is kept |
| LLMTestGenerator.NullEntryDropped | src/main/java/com/testleaf/llm/LLMTestGenerator.java:57-65 | in a list of two or more, a null entry fails all three equalsIgnoreCase tests and contributes nothing: filtering with it equals filtering without it |
| LLMTestGenerator.NullBesidePositiveExample | src/main/java/com/testleaf/llm/LLMTestGenerator.java:55-67 | ["positive", null] gives "- Include Only Positive tests\n" |
| LLMTestGenerator.NullBetweenExample | src/main/java/com/testleaf/llm/LLMTestGenerator.java:55-71 | ["edge", null, "negative"] gives "- Include Edge and Negative tests\n" |
| LLMTestGenerator.SystemContentEmbedsLine | src/main/java/com/testleaf/llm/LLMTestGenerator.java:87-102 | the category line sits verbatim right after the fixed instructions up to the imports one, and the system message determines it |
| LLMTestGenerator.UserPromptCarriesDetails | src/main/java/com/testleaf/llm/LLMTestGenerator.java:78-79 | the user message is the fixed lead-in followed by the details unchanged |
| LLMTestGenerator.PayloadFields | src/main/java/com/testleaf/llm/LLMTestGenerator.java:83-119 | the payload holds the model, [system, user] in order, temperature 0.1, top_p 0.2 and max_tokens 10000 |
| LLMTestCaseGenerator.TestTypeLine | src/main/java/com/testleaf/llm/LLMTestCaseGenerator.java:40-49 | the manual generator's one-type line: null or empty Only Positive, "negative" or "edge" ignoring case that type, anything else Only Positive; its cases are TestTypeLineCases and the examples below |
| LLMTestCaseGenerator.Request | src/main/java/com/testleaf/llm/LLMTestCaseGenerator.java:32-130 | what llmGenerateTestCases ends in, with no test-type parameter: the advisory for a null or empty story, otherwise a payload of the fixed system text and the user prompt |
| LLMTestCaseGenerator.LlmGenerateTestCases | src/main/java/com/testleaf/llm/LLMTestCaseGenerator.java:32-130 | the result is `Request` of the other arguments, which has no test-type parameter: the request is the same for every test type |
| LLMTestCaseGenerator.GenerateTestCases | src/main/java/com/testleaf/llm/LLMTestCaseGenerator.java:133-136 | the four-argument overload ends in the same request as `LlmGenerateTestCases` with the same remaining arguments |
| LLMTestCaseGenerator.AdvisoryExactlyWithoutStory | src/main/java/com/testleaf/llm/LLMTestCaseGenerator.java:35-36 | the advisory "No valid user story description to generate test cases." comes back exactly when the description is null or empty |
| LLMTestCaseGenerator.TestTypeLineCases | src/main/java/com/testleaf/llm/LLMTestCaseGenerator.java:40-49 | null or empty gives Only Positive; a string whose lower case is "negative" or "edge" gives that type; anything else gives Only Positive |
| LLMTestCaseGenerator.OtherLengthIsPositive | src/main/java/com/testleaf/llm/LLMTestCaseGenerator.java:40-49 | any string whose length is neither 8 nor 4 gives Only Positive, comma-joined selections such as "Positive, Negative" and "Negative, Edge" among them |
| LLMTestCaseGenerator.NegativeInCapitals | src/main/java/com/testleaf/llm/LLMTestCaseGenerator.java:43-44 | "NEGATIVE" gives Only Negative |
| LLMTestCaseGenerator.EdgeCapitalized | src/main/java/com/testleaf/llm/LLMTestCaseGenerator.java:45-46 | "Edge" gives Only Edge |
| LLMTestCaseGenerator.UserPromptStartsWithStory | src/main/java/com/testleaf/llm/LLMTestCaseGenerator.java:52-55 | the prompt starts with the lead-in, the description verbatim and the URL line; a null URL reads "null" |
| LLMTestCaseGenerator.EpicAppendedIffPresent | src/main/java/com/testleaf/llm/LLMTestCaseGenerator.java:57-59 | the epic line is appended exactly when the epic is non-null and non-empty; otherwise the prompt ends with the acceptance-criteria line |
| LLMTestCaseGenerator.SystemContentHoldsExample | src/main/java/com/testleaf/llm/LLMTestCaseGenerator.java:67-99 | the fixed system text ends with the testCases example, right after the instructions |
| LLMTestCaseGenerator.SchemaExampleHoldsRecords | src/main/java/com/testleaf/llm/LLMTestCaseGenerator.java:78-99 | the example holds record TC001 and then record TC002, separated by ",\n" |
| LLMTestCaseGenerator.PayloadFields | src/main/java/com/testleaf/llm/LLMTestCaseGenerator.java:63-118 | the payload holds the model, the fixed system message and the user prompt in that order, temperature 0.1, top_p 0.2 and max_tokens 10000 |
| TestCaseExcelConvertor.DownloadTestCases | src/main/java/com/testleaf/controller/TestCaseExcelConvertor.java:20-52 | "Invalid test case data" exactly when the request or its list is null; otherwise a sheet "Test Cases" with n+1 rows, the seven-column header first and record i in row i+1 |
| TestCaseExcelConvertor.DataRow | src/main/java/com/testleaf/controller/TestCaseExcelConvertor.java:43-51 | a data row has one cell per header column, and its Actual_Result cell is "" |
| TestCaseExcelConvertor.DataRowFollowsHeader | src/main/java/com/testleaf/controller/TestCaseExcelConvertor.java:43-51 | every data row has seven cells; each column but Actual_Result holds the field its header names, null as ""; Actual_Result is "" |
| TestCaseExcelConvertor.NullFieldsBlank | src/main/java/com/testleaf/controller/TestCaseExcelConvertor.java:43-51 | a null field leaves its cell empty and a present one is copied verbatim |
| TestCaseExcelConvertor.ActualResultIgnored | src/main/java/com/testleaf/controller/TestCaseExcelConvertor.java:47-49 | a record's Actual_Result value has no effect on its row |
| TestCaseExcelConvertor.RowDeterminesFields | src/main/java/com/testleaf/controller/TestCaseExcelConvertor.java:43-51 | two records with equal rows agree on every field but Actual_Result, a null field counting as "" |

## Left out

- The HTTP call `callLLMApi` in both generators is I/O. A generator's `Send` outcome stops at the payload. The reply text, or the "Error calling LLM API: ..." text, is not modelled.
- JSON serialization (`writeValueAsString`) is a library call, and so is the "Error building JSON payload" branch that depends on it.
- JSON parsing (`readTree`, `path`, `asText`) is a library call. `Envelope` is the already parsed reply. A null or unparsable reply is `Malformed`. A missing content node reads "" and a JSON null reads "null".
- Apache POI I/O is left out: the workbook object, `workbook.write`, the byte array, the Content-Disposition header and the IOException path to status 500. The sheet is its rows of cell texts.
- Spring wiring: the annotations, `@Value` fields and `ResponseEntity` construction. Also left out are the controller's `generateTestCases` endpoint (TestCaseGenerationController.java lines 37-58) and TestGenerationController.java, which forwards to a class that is not part of this model.
- Logging (`System.out.println`, `printStackTrace`) has no effect on results.
- LLMTestGenerator.GenerateTestCases: a `testTypes` list whose only entry is null throws a NullPointerException at `toLowerCase` (line 46); the model requires that lone entry to be present (`LoneEntryPresent`). In a list of two or more, null entries are modelled and are dropped, since `"negative".equalsIgnoreCase(null)` is false.
- TestCaseExcelConvertor.DownloadTestCases: a null record inside the `testCases` list throws a NullPointerException at its first getter (line 43); the model's record list holds no nulls.
- A null `TestType` passed to `convertTestTypeToString` throws a NullPointerException. The model's `TestType` is never null.
- JavaStrings.ToLower: maps ASCII letters only. Locale-dependent and non-ASCII case mapping is not modelled. Examples are the Turkish dotless i and the Kelvin sign that `equalsIgnoreCase` accepts.
- JavaStrings.EqualsIgnoreCase: folds ASCII letters only. Java's `equalsIgnoreCase` also equates non-ASCII pairs such as 'Ä' and 'ä', 'ı' and 'i', 'ſ' and 's', and the Kelvin sign and 'k'. So `Canonical` and `TestTypeLine` recognize fewer spellings than the Java does.
- JavaStrings.EqualsIgnoreCaseIsLowerEquality: holds for the model's ASCII mapping only. In Java, the single-entry branch (`toLowerCase()` in the default locale, then `equals`, LLMTestGenerator.java:46-47) and the multi-entry branch (`equalsIgnoreCase`, lines 58-62) can disagree. For "negatıve" with a dotless i, `["negatıve"]` gives Only Positive while `["negatıve", "x"]` gives Only Negative. Under a Turkish default locale, `["NEGATIVE"]` gives Only Positive while `["NEGATIVE", "x"]` gives Only Negative. For the dotless-i pair, the model gives Only Positive and "- Include  tests\n", because neither branch recognizes the spelling. For the Turkish-locale pair, it gives Only Negative both times, as Java does under an English locale.
- ChatRequest.BuildPayload: temperature and top_p are the exact literals 0.1 and 0.2 as `real`, not IEEE doubles.
- LLMTestCaseGenerator.SystemContentHoldsExample: states where the example sits within the fixed text; it does not spell out the example's characters, which are given by the constants themselves.
