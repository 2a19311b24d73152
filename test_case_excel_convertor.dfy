/** TestCaseExcelConvertor: the rows of the "Test Cases" sheet built from a
    list of test-case records. The workbook itself is a sequence of rows, each
    a sequence of cell texts. */
module TestCaseExcelConvertor {
  import opened JavaStrings

  /** One test-case record; any field may be null. */
  datatype TestCase = TestCase(
    tcNo: Option<string>,
    testCaseDescription: Option<string>,
    preRequisites: Option<string>,
    testSteps: Option<string>,
    actualResult: Option<string>,
    expectedResult: Option<string>,
    status: Option<string>)

  /** The request body: a possibly null list of records. */
  datatype TestCaseDetailsResponse = TestCaseDetailsResponse(testCases: Option<seq<TestCase>>)

  /** What the endpoint answers: a bad request with a message, or a workbook
      with one named sheet. */
  datatype Download =
    | BadRequest(body: string)
    | Workbook(sheetName: string, rows: seq<seq<string>>)

  const InvalidData := "Invalid test case data"
  const SheetName := "Test Cases"

  /** The header row, which are also the JSON property names of the record's
      fields. */
  const Columns: seq<string> :=
    ["TC_No", "Test_Case_Description", "Pre-requisites", "Test_Steps", "Actual_Result", "Expected_Result", "Status"]

  /** The record's field carrying a JSON property name (null for any other
      name). */
  function Field(tc: TestCase, name: string): Option<string> {
    if name == "TC_No" then tc.tcNo
    else if name == "Test_Case_Description" then tc.testCaseDescription
    else if name == "Pre-requisites" then tc.preRequisites
    else if name == "Test_Steps" then tc.testSteps
    else if name == "Actual_Result" then tc.actualResult
    else if name == "Expected_Result" then tc.expectedResult
    else if name == "Status" then tc.status
    else None
  }

  /** The cells of one data row: every field with null read as "", except the
      Actual_Result column, which is always left empty. */
  function DataRow(tc: TestCase): (r: seq<string>)
    ensures |r| == |Columns|
    ensures r[4] == ""
  {
    [OrEmpty(tc.tcNo), OrEmpty(tc.testCaseDescription), OrEmpty(tc.preRequisites), OrEmpty(tc.testSteps),
     "", OrEmpty(tc.expectedResult), OrEmpty(tc.status)]
  }

  /** downloadTestCases, up to the point where the workbook is written out: the
      null checks, the header loop and the data loop with its row counter. */
  method DownloadTestCases(request: Option<TestCaseDetailsResponse>) returns (d: Download)
    ensures d.BadRequest? <==> request.None? || request.value.testCases.None?
    ensures d.BadRequest? ==> d.body == "Invalid test case data"
    ensures d.Workbook? ==>
      var tcs := request.value.testCases.value;
      && d.sheetName == "Test Cases"
      && |d.rows| == |tcs| + 1
      && d.rows[0] == Columns
      && forall i :: 0 <= i < |tcs| ==> d.rows[i + 1] == DataRow(tcs[i])
  {
    if request.None? || request.value.testCases.None? {
      return BadRequest(InvalidData);
    }

    var rows: seq<seq<string>> := [];
    var headerRow: seq<string> := [];
    for i := 0 to |Columns|
      invariant headerRow == Columns[..i]
    {
      headerRow := headerRow + [Columns[i]];
    }
    rows := rows + [headerRow];

    var testCases := request.value.testCases.value;
    var rowNum := 1;
    for k := 0 to |testCases|
      invariant rowNum == k + 1 == |rows|
      invariant rows[0] == Columns
      invariant forall i :: 0 <= i < k ==> rows[i + 1] == DataRow(testCases[i])
    {
      var testCase := testCases[k];
      var row: seq<string> := [];
      row := row + [OrEmpty(testCase.tcNo)];
      row := row + [OrEmpty(testCase.testCaseDescription)];
      row := row + [OrEmpty(testCase.preRequisites)];
      row := row + [OrEmpty(testCase.testSteps)];
      row := row + [""];
      row := row + [OrEmpty(testCase.expectedResult)];
      row := row + [OrEmpty(testCase.status)];
      rows := rows + [row];
      rowNum := rowNum + 1;
    }
    d := Workbook(SheetName, rows);
  }

  /** Every data row has seven cells; each column other than Actual_Result
      holds the field named by its header, null read as "", and the
      Actual_Result column is empty. */
  lemma DataRowFollowsHeader(tc: TestCase)
    ensures |DataRow(tc)| == |Columns| == 7
    ensures forall k :: 0 <= k < 7 && k != 4 ==> DataRow(tc)[k] == OrEmpty(Field(tc, Columns[k]))
    ensures DataRow(tc)[4] == ""
  {
    assert Field(tc, Columns[0]) == tc.tcNo;
    assert Field(tc, Columns[1]) == tc.testCaseDescription;
    assert Field(tc, Columns[2]) == tc.preRequisites;
    assert Field(tc, Columns[3]) == tc.testSteps;
    assert Field(tc, Columns[5]) == tc.expectedResult;
    assert Field(tc, Columns[6]) == tc.status;
  }

  /** A null field leaves its cell empty, and a present one is copied
      verbatim. */
  lemma NullFieldsBlank(tc: TestCase, k: nat)
    requires k < 7 && k != 4
    ensures Field(tc, Columns[k]).None? ==> DataRow(tc)[k] == ""
    ensures Field(tc, Columns[k]).Some? ==> DataRow(tc)[k] == Field(tc, Columns[k]).value
  {
    DataRowFollowsHeader(tc);
  }

  /** The row does not depend on Actual_Result: two records that differ only
      there give the same row. */
  lemma ActualResultIgnored(tc: TestCase, other: Option<string>)
    ensures DataRow(tc.(actualResult := other)) == DataRow(tc)
  {
  }

  /** The row determines every field but Actual_Result up to null versus "":
      two records with the same row agree on every other field read through
      `x != null ? x : ""`. */
  lemma RowDeterminesFields(a: TestCase, b: TestCase)
    requires DataRow(a) == DataRow(b)
    ensures forall k :: 0 <= k < 7 && k != 4 ==> OrEmpty(Field(a, Columns[k])) == OrEmpty(Field(b, Columns[k]))
  {
    DataRowFollowsHeader(a);
    DataRowFollowsHeader(b);
  }
}
