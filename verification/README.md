# CSV Strands agent: command layer and prompts

This project models the command-line agent in `agents/csv_strands_agent.py`. The agent
talks to a CSV-processing MCP server through an LLM agent framework. The model covers the
part of the program that is decided locally, before anything reaches the model or the
server:

- **Start-up** (`main`). Two environment variables are read with their defaults, and the
  agent class is built with its default model id `gpt-4`. `initialize` runs on whatever tool
  discovery produced. One example `list_jobs` call follows, and any exception on the way
  exits with status 1.
- **The agent class** (`CSVStrandsAgent`). Its fields are the server URL, the API key, the
  model id and an optional agent. `initialize` returns early and leaves the agent unset when
  the server offers no tools. Each of the six command methods raises
  `Agent not initialized. Call initialize() first.` while there is no agent, and otherwise
  builds a fixed natural-language prompt around its arguments.
- **The interactive loop**. Each input line is stripped, then matched in order against:
  blank, `exit`, `list`, and the `status `, `query ` and `analyze ` prefixes, all
  case-insensitively. The argument is the stripped remainder. Any other non-blank line is
  sent to the model as the stripped line, or refused when there is no agent. Errors are
  printed and the loop goes on. `exit` and Ctrl-C end it.

Modules, in dependency order:

| module | file | contents |
|---|---|---|
| `Wrappers` | `wrappers.dfy` | `Option`, `Result` |
| `PyText` | `pytext.dfy` | Python's `strip()` with the exact `str.isspace` set, `lower()`, `startswith`, `str()` of an integer and its inverse |
| `Settings` | `settings.dfy` | the environment lookup with defaults |
| `Prompts` | `prompts.dfy` | the prompt texts; one-hole templates with a fill/unfill round trip |
| `CsvAgent` | `csv_agent.dfy` | the agent class: state, `initialize`, the command methods and their guard |
| `Commands` | `commands.dfy` | classification of an input line, and its inverse `Render` |
| `Loop` | `loop.dfy` | the shape of the `while True` loop for any treatment of one line, both as written and with end of input ending it |
| `Repl` | `repl.dfy` | dispatch, the loop as a function and as a `while` method, start-up, the whole program |

The agent's `run` is the parameter `run: string -> Result<string, string>`. A `Failure`
from it stands for an exception `run` raises. Input is a sequence of events, each a line or
a Ctrl-C, and running out of events is end of input. Tool discovery is given as a
`Result<seq<Tool>, string>`, and the file-system check of `process_csv` as a boolean.

Three consequences of the code that a reader might not expect:

- The model id is never taken from the environment. `main` constructs the agent without
  one (line 258), so it is always the constructor default `gpt-4` (line 25).
- A `status`, `query` or `analyze` command never has an empty argument. The line is
  stripped before the test, and the prefix ends in a space, so something that is not
  whitespace must follow it. `status` alone is a free-form request.
- With no tools, the interactive loop is never reached. The example `list_jobs` call at
  line 267 raises the not-initialized error, and `main` exits with status 1.

## Model

| member | source | states |
|---|---|---|
| PyText.Strip | agents/csv_strands_agent.py:283 | the stripped line has no whitespace at either end and is no longer than the input |
| PyText.StripFacts | agents/csv_strands_agent.py:283 | the stripped line is a contiguous piece of the input with only whitespace cut before and after it |
| PyText.StripUnique | agents/csv_strands_agent.py:283 | any whitespace around a trimmed text strips back to exactly that text |
| PyText.StripIdempotent | agents/csv_strands_agent.py:296 | stripping an already stripped line changes nothing, so the second strip of an argument is harmless |
| PyText.StripEmptyIff | agents/csv_strands_agent.py:283-286 | a line strips to nothing exactly when it is all whitespace |
| PyText.StripAbsorbsSpace | agents/csv_strands_agent.py:283 | whitespace added around a line never changes its stripped form |
| PyText.LStripFacts | agents/csv_strands_agent.py:283 | the left strip keeps a suffix, cuts only whitespace, and stops at the first non-whitespace character |
| PyText.RStripFacts | agents/csv_strands_agent.py:283 | the right strip keeps a prefix, cuts only whitespace, and stops at the last non-whitespace character |
| PyText.Lower | agents/csv_strands_agent.py:288 | lower-casing keeps the length and maps each character on its own, upper-case ASCII letters to lower case |
| PyText.LowerKeepsSpace | agents/csv_strands_agent.py:295 | lower-casing neither creates nor removes whitespace or the space that ends a prefix |
| PyText.IntToString | agents/csv_strands_agent.py:165 | Python's `str()` of the limit: a leading digit for a non-negative number, a minus sign and at least one digit for a negative one |
| PyText.IntToStringRoundTrip | agents/csv_strands_agent.py:165 | the decimal text of the query limit parses back to the same integer, negative ones included |
| PyText.DigitsRoundTrip | agents/csv_strands_agent.py:165 | the digits of a natural number read back as that number |
| Settings.GetEnv | agents/csv_strands_agent.py:250-251 | a set variable is returned verbatim, even when empty; an unset one gives the fallback |
| Settings.LoadConfig | agents/csv_strands_agent.py:250-258 | URL and key come from `MCP_SERVER_URL` and `API_KEY`, else `http://localhost:3000/sse` and `change-me-in-production`; the model id is always `gpt-4` |
| Settings.LoadConfigReadsTwoVariables | agents/csv_strands_agent.py:250-251 | environments that agree on the two variables give the same configuration |
| Prompts.Fill | agents/csv_strands_agent.py:183 | a filled template starts with its head, ends with its tail, and holds the argument between them |
| Prompts.Unfill | agents/csv_strands_agent.py:183 | an argument is read back exactly when the text has the template's head and tail |
| Prompts.UnfillFill | agents/csv_strands_agent.py:183 | filling a template and reading it back returns the argument |
| Prompts.FillUnfill | agents/csv_strands_agent.py:183 | every text that can be read back is the filling of what is read |
| Prompts.FillInjective | agents/csv_strands_agent.py:240 | different job ids or table names never give the same prompt |
| Prompts.StatusPrompt | agents/csv_strands_agent.py:183 | the status prompt is the fixed text around the job id, which can be read back unaltered |
| Prompts.CleanupPrompt | agents/csv_strands_agent.py:240 | the clean-up prompt is the fixed text around the job id, which can be read back unaltered |
| Prompts.AnalyzePrompt | agents/csv_strands_agent.py:216-221 | the analysis prompt is the table name followed by the five-point request, and the name can be read back |
| Prompts.QueryPrompt | agents/csv_strands_agent.py:165 | the query prompt holds the table name and the decimal text of the limit, and both can be read back |
| Prompts.QueryDefaultLimit | agents/csv_strands_agent.py:151 | with the default limit the prompt asks for the first `100` rows |
| Prompts.ProcessCsvPrompt | agents/csv_strands_agent.py:142-145 | the prompt starts with the file path, ends with the request for details, and has the table clause exactly when the table name is truthy |
| Prompts.ProcessCsvTableClause | agents/csv_strands_agent.py:143-144 | no table name and an empty one give the same prompt; a truthy name makes it longer |
| CsvAgent.NewAgent | agents/csv_strands_agent.py:25-38 | a new instance stores its configuration and has no agent |
| CsvAgent.Initialize | agents/csv_strands_agent.py:52-80 | discovery errors propagate; no tools leaves the instance unchanged; otherwise the agent holds exactly the discovered tools and the instance's model id; nothing but the agent changes |
| CsvAgent.ProcessCsv | agents/csv_strands_agent.py:136-148 | it fails exactly when there is no agent; a missing file is answered without the model; otherwise the import prompt is sent |
| CsvAgent.QueryTable | agents/csv_strands_agent.py:162-167 | it fails exactly when there is no agent, with the not-initialized message; otherwise it sends the query prompt |
| CsvAgent.GetJobStatus | agents/csv_strands_agent.py:180-185 | it fails exactly when there is no agent, with the not-initialized message; otherwise it sends the status prompt |
| CsvAgent.ListJobs | agents/csv_strands_agent.py:195-200 | it fails exactly when there is no agent, with the not-initialized message; otherwise it sends the fixed listing prompt |
| CsvAgent.AnalyzeData | agents/csv_strands_agent.py:213-224 | it fails exactly when there is no agent, with the not-initialized message; otherwise it sends the analysis prompt |
| CsvAgent.CleanupJob | agents/csv_strands_agent.py:237-242 | it fails exactly when there is no agent, with the not-initialized message; otherwise it sends the clean-up prompt |
| CsvAgent.FreshAgentRefusesCommands | agents/csv_strands_agent.py:57-59 | after an `initialize` that found no tools, every command method refuses |
| Commands.Prefix | agents/csv_strands_agent.py:295-304 | each argument-taking command's prefix is at least six characters and ends in a space |
| Commands.Classify | agents/csv_strands_agent.py:283-314 | the loop's reading of one line: blank exactly when the line is all whitespace; an argument is trimmed and the lower-cased line starts with that command's prefix; free-form text is the stripped line, non-empty and matching no keyword. Commands.ClassifyCases, Commands.ClassifyArgument, Commands.PrefixAnyCase and Commands.ClassifyRender specify it fully |
| Commands.ClassifyCases | agents/csv_strands_agent.py:283-313 | each outcome of the classification holds exactly when its own test holds, independently of the test order; free-form text is the stripped line |
| Commands.BareKeywordIsFreeForm | agents/csv_strands_agent.py:292-307 | `status`, `query` or `analyze` without a following space, and `list` followed by more text, are free-form requests |
| Commands.ClassifyArgument | agents/csv_strands_agent.py:295-305 | an argument is non-empty and trimmed, and the stripped line is the prefix in any case, then whitespace, then the argument |
| Commands.ArgumentAfterPrefix | agents/csv_strands_agent.py:296 | after a matched prefix the stripped remainder is non-empty, trimmed, and the tail of the line after some whitespace |
| Commands.ClassifyWellFormed | agents/csv_strands_agent.py:283-313 | every classification result is well formed: arguments and free-form text are non-empty and trimmed, and free-form text matches no keyword |
| Commands.ClassifyPrefixed | agents/csv_strands_agent.py:295-305 | a line whose lower-cased form starts with a prefix selects that command with the stripped remainder as argument |
| Commands.PrefixAnyCase | agents/csv_strands_agent.py:283-305 | any spelling of a keyword, any whitespace after it and around the line, selects the command with the argument intact |
| Commands.ClassifyBareCommands | agents/csv_strands_agent.py:285-292 | the empty line, `exit` and `list` select skip, exit and list |
| Commands.ClassifyFreeForm | agents/csv_strands_agent.py:307-313 | trimmed text that matches no keyword is forwarded unaltered |
| Commands.ClassifyRender | agents/csv_strands_agent.py:283-313 | the canonical line of a well-formed command classifies back to that command |
| Commands.ClassifyRenderClassify | agents/csv_strands_agent.py:283-313 | classifying the canonical line of what a line means gives the same meaning |
| Commands.ClassifyStatusExample | agents/csv_strands_agent.py:295-296 | `STATUS job-42` selects the status command for `job-42` |
| Repl.Forward | agents/csv_strands_agent.py:293-306 | a command method that raised is reported and nothing is sent; otherwise its prompt goes to `run` and the outcome is recorded |
| Repl.Dispatch | agents/csv_strands_agent.py:285-314 | only a blank line is idle; only `exit` ends the loop; the model is used only with an agent; without one, commands fail with the not-initialized message and free text is refused |
| Repl.DispatchPrompts | agents/csv_strands_agent.py:292-314 | with an agent, each command sends its method's prompt, a query with limit 100, and free text unchanged |
| Repl.Step | agents/csv_strands_agent.py:283-314 | one iteration on one line: idle exactly for an all-whitespace line; it ends the loop exactly when the stripped, lower-cased line is `exit`; it never reports a read error |
| Loop.Drive | agents/csv_strands_agent.py:281-320 | the loop corrected so that end of input ends it, for any treatment of one line: at most one turn per event plus one, the last terminal |
| Loop.DriveShape | agents/csv_strands_agent.py:281-320 | in the corrected loop every turn before the last is the turn of the line at the same position and not `exit`; it ends at end of input exactly when all input was read |
| Loop.DriveFirst | agents/csv_strands_agent.py:283-290 | Ctrl-C and an `exit` line end the loop at once; any other line adds its turn in front of the rest |
| Loop.DriveAsWritten | agents/csv_strands_agent.py:281-320 | the loop as written, where `input()`'s end-of-input error is reported and reading goes on; each iteration yields at most one turn |
| Loop.AsWrittenAtEof | agents/csv_strands_agent.py:283 | at end of input the loop as written reports the same read error on every iteration it is given |
| Loop.AsWrittenFirst | agents/csv_strands_agent.py:283-290 | before end of input the loop as written reads the first event as the corrected loop does |
| Loop.AsWrittenAgrees | agents/csv_strands_agent.py:316-320 | with enough iterations, a run ended by `exit` or Ctrl-C is the same under the loop as written and the corrected loop |
| Repl.Session | agents/csv_strands_agent.py:281-320 | the corrected loop (end of input ends the session, unlike line 283 as written) for the program's own line treatment: at most one turn per event plus one, the last terminal |
| Repl.SessionShape | agents/csv_strands_agent.py:281-320 | in the corrected loop, every turn before the last comes from the line at the same position and is not terminal; the session ends at end of input exactly when all input was read; otherwise by Ctrl-C or `exit` |
| Repl.RunLoop | agents/csv_strands_agent.py:281-320 | the `while` loop, corrected so that end of input ends it, produces exactly the turns of `Session` |
| Repl.LoopAsWritten | agents/csv_strands_agent.py:281-320 | the loop as written for the program's own line treatment, where end of input is reported as an error and reading goes on; each iteration it is given yields at most one turn |
| Repl.EofNeverEnds | agents/csv_strands_agent.py:283 | at end of input the loop as written reports the same error on every iteration and never ends |
| Repl.EmptyInputSpins | agents/csv_strands_agent.py:319-320 | on empty input the loop as written is still running after a hundred iterations, while the corrected loop closes at once |
| Repl.AsWrittenAgreesBeforeEof | agents/csv_strands_agent.py:316-320 | a session ended by `exit` or Ctrl-C is the same under the loop as written and the corrected loop |
| Repl.Start | agents/csv_strands_agent.py:246-268 | start-up succeeds exactly when discovery found tools and the example listing succeeded; no tools aborts with the not-initialized message; a ready agent has the configured URL, key, model `gpt-4` and the discovered tools |
| Repl.RunProgram | agents/csv_strands_agent.py:246-325 | the whole program with the corrected loop: the exit status is 1 exactly when start-up aborted, with no loop; otherwise it is 0 after a session that ended with a terminal turn (as written, a session reaching end of input never ends) |
| Repl.ProgramNeverRefuses | agents/csv_strands_agent.py:309-311 | in a full run of the corrected program no turn is refused for want of an agent and no read fails: the loop's own not-initialized branches are unreachable |
| Repl.SessionNeverRefuses | agents/csv_strands_agent.py:293-314 | with an agent, no turn of a corrected session fails, is refused or is a read error |
| Repl.StatusExample | agents/csv_strands_agent.py:295-297 | with an agent, `STATUS job-42` sends the status prompt for `job-42` and records its outcome |

## Left out

- The MCP client and its SSE transport (lines 44–50), and the tool listing inside `_get_tools` (lines 82–95), are not modelled. Discovery is an input, a tool list or an error.
- The text of `_get_system_prompt` (lines 97–123) is not modelled. The framework consumes it, and nothing in this program reads it.
- The `Model` and `Agent` objects of the framework (lines 66–74) are reduced to the agent's name, model id and tools.
- `agent.run` is a parameter. Its replies, and which exceptions it raises, are whatever that parameter returns.
- All `print` output, the `input()` prompt string, `asyncio` scheduling and `load_dotenv` are not modelled.
- Ctrl-C is modelled only while `input()` waits. A `KeyboardInterrupt` raised inside `agent.run`, or during start-up, is not modelled.
- `os.path.exists` in `process_csv` is a boolean parameter.
- The `mcp_client` field is not modelled, because only the MCP connection uses it.
- PyText.Lower: maps only ASCII letters, not Python's full Unicode `lower()`. Classification is nevertheless the same. The only non-ASCII characters whose lower case contains an ASCII letter are U+212A (Kelvin sign), which becomes `k`, and U+0130, which becomes the two characters `i` and U+0307. No keyword or prefix contains `k` or U+0307. So a line containing either character never equals `exit` or `list` after lowering, and it matches a prefix only when the character comes after the prefix, where both lowerings agree. The argument is cut from the original line, not the lowered one (lines 296, 300, 304), so it is unaffected.
- PyText.IsSpace: uses the fixed set of characters Python's `str.isspace` accepts, listed by code point rather than taken from the Unicode database.

## Findings

| source | as written | input that shows it | evidently intended | confidence | as-written member | corrected member |
|---|---|---|---|---|---|---|
| agents/csv_strands_agent.py:283 | at end of input `input()` raises `EOFError`, which the generic handler at line 319 catches; the loop prints the error and reads again, forever | an empty standard input (no lines, no Ctrl-C) | end of input ends the loop like `exit` | not executed | Repl.LoopAsWritten, Repl.EofNeverEnds | Repl.Session, Repl.SessionShape, Repl.RunLoop, Repl.RunProgram |
