/** The natural-language prompts the agent class sends to the model. Each
    command method splices its arguments into a fixed text; the one-argument
    texts are `Template`s with a hole between a head and a tail. */
module Prompts {

  import opened Wrappers
  import opened PyText

  /** A fixed text with one hole: `head + argument + tail`. */
  datatype Template = Template(head: string, tail: string)

  function Fill(t: Template, arg: string): (r: string)
    ensures |r| == |t.head| + |arg| + |t.tail|
    ensures StartsWith(r, t.head) && EndsWith(r, t.tail)
    ensures r[|t.head|..|r| - |t.tail|] == arg
  {
    t.head + arg + t.tail
  }

  /** Reads the argument back out of a filled template, if `s` is one. */
  function Unfill(t: Template, s: string): (r: Option<string>)
    ensures r.Some? <==>
              |t.head| + |t.tail| <= |s| && StartsWith(s, t.head) && EndsWith(s, t.tail)
  {
    if |t.head| + |t.tail| <= |s| && StartsWith(s, t.head) && EndsWith(s, t.tail)
    then Some(s[|t.head|..|s| - |t.tail|])
    else None
  }

  /** Filling a template loses nothing: the argument can be read back. */
  lemma UnfillFill(t: Template, arg: string)
    ensures Unfill(t, Fill(t, arg)) == Some(arg)
  {
  }

  /** Everything `Unfill` accepts is the filling of what it returns. */
  lemma {:induction false} FillUnfill(t: Template, s: string)
    requires Unfill(t, s).Some?
    ensures Fill(t, Unfill(t, s).value) == s
  {
    var a := Unfill(t, s).value;
    assert s == s[..|t.head|] + a + s[|s| - |t.tail|..];
  }

  /** Different arguments never produce the same prompt. */
  lemma FillInjective(t: Template, a: string, b: string)
    requires Fill(t, a) == Fill(t, b)
    ensures a == b
  {
    UnfillFill(t, a);
    UnfillFill(t, b);
  }

  const StatusTemplate := Template("Check the status of CSV processing job ", " and provide details.")
  const CleanupTemplate := Template("Clean up and remove cached data for job ", ".")
  /** The five-point request that follows the table name in `analyze_data`. */
  const AnalyzeRequest :=
    " table and provide:\n"
    + "        1. Basic statistics (row count, column count)\n"
    + "        2. Data type breakdown\n"
    + "        3. Sample data (first 5 rows)\n"
    + "        4. Any notable patterns or insights\n"
    + "        5. Recommendations for data usage"
  const AnalyzeTemplate := Template("Analyze the ", AnalyzeRequest)

  const ListPrompt := "List all active CSV processing jobs and their current status."

  /** `query_table`'s `limit` when the caller gives none. */
  const DefaultLimit := 100

  /** `query_table` prints `limit` with Python's `str`, so its text depends
      on the number; the table name is the hole. */
  function QueryTemplate(limit: int): Template {
    Template("Query the ", " table and show me the first " + IntToString(limit)
                           + " rows with statistics.")
  }

  const FileAtHead := "Process the CSV file at "
  const TableClauseHead := " and import it to a table called "
  const ImportDetails := ". Provide details about the import including job ID, row count, and status."

  /** `get_job_status`: the job id, unaltered, between two fixed texts. */
  function StatusPrompt(jobId: string): (r: string)
    ensures r == "Check the status of CSV processing job " + jobId + " and provide details."
    ensures Unfill(StatusTemplate, r) == Some(jobId)
  {
    Fill(StatusTemplate, jobId)
  }

  /** `cleanup_job`: the job id, unaltered, between two fixed texts. */
  function CleanupPrompt(jobId: string): (r: string)
    ensures r == "Clean up and remove cached data for job " + jobId + "."
    ensures Unfill(CleanupTemplate, r) == Some(jobId)
  {
    Fill(CleanupTemplate, jobId)
  }

  /** `analyze_data`: the table name, then the five-point request. */
  function AnalyzePrompt(table: string): (r: string)
    ensures r == "Analyze the " + table + AnalyzeRequest
    ensures Unfill(AnalyzeTemplate, r) == Some(table)
  {
    Fill(AnalyzeTemplate, table)
  }

  /** `query_table`: the table name and the decimal text of `limit`, which
      reads back as `limit`. */
  function QueryPrompt(table: string, limit: int): (r: string)
    ensures var n := IntToString(limit);
            r == "Query the " + table + " table and show me the first " + n
                 + " rows with statistics."
            && ParseInt(n) == Some(limit)
    ensures Unfill(QueryTemplate(limit), r) == Some(table)
  {
    IntToStringRoundTrip(limit);
    Fill(QueryTemplate(limit), table)
  }

  /** With the default limit the prompt asks for the first `100` rows. */
  lemma QueryDefaultLimit()
    ensures IntToString(DefaultLimit) == "100"
  {
    assert Digits(1) == "1";
    assert Digits(10) == Digits(1) + "0";
    assert Digits(100) == Digits(10) + "0";
  }

  /** Python truthiness of an optional table name: set and non-empty. */
  predicate Truthy(name: Option<string>) {
    name.Some? && name.value != ""
  }

  /** `process_csv`'s prompt: the file path, the table clause only for a
      truthy table name, and always the closing request for details. */
  function ProcessCsvPrompt(filePath: string, table: Option<string>): (r: string)
    ensures StartsWith(r, "Process the CSV file at " + filePath)
    ensures EndsWith(r, ImportDetails)
    ensures |FileAtHead + filePath| + |ImportDetails| <= |r|
    ensures var mid := r[|FileAtHead + filePath|..|r| - |ImportDetails|];
            (Truthy(table) ==> mid == " and import it to a table called " + table.value)
            && (!Truthy(table) ==> mid == "")
  {
    var clause := if Truthy(table) then TableClauseHead + table.value else "";
    var r := FileAtHead + filePath + clause + ImportDetails;
    assert r[|FileAtHead + filePath|..|r| - |ImportDetails|] == clause;
    r
  }

  /** A table name of `None` and an empty one give the same prompt, and any
      truthy name makes the prompt longer than that. */
  lemma ProcessCsvTableClause(filePath: string, table: Option<string>)
    ensures ProcessCsvPrompt(filePath, None) == ProcessCsvPrompt(filePath, Some(""))
    ensures Truthy(table) <==>
              |ProcessCsvPrompt(filePath, table)| > |ProcessCsvPrompt(filePath, None)|
  {
  }
}
