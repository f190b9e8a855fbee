# local-ollama-agent: a verified model of the chat client's logic

This project models the logic of a small terminal chat client for a local Ollama server. The
terminal, network and file system are left out. Five pieces are modelled:

- **Session** (`session.dfy`): the `ChatSession` class and its main loop.
  - It keeps the conversation history `messages` and the exchange counter `msgCount`.
  - It skips each blank input line.
  - It routes commands (`/exit`/`exit`, `/clear`, `/model`, `/help`, unknown) to
    `_handle_command`.
  - Any other line starts an exchange. The user turn is appended and the reply is streamed. On
    `OllamaError` the user turn is popped again. On success the reply is appended, logged and
    counted.
  - The class is specified by pure functions (`Step`, `RunLines`, `RunSession`) on a `State`
    value. The invariants and consequences are proved about those functions.
  - The log file becomes a ghost, append-only list of entries.
- **Stream** (`stream.dfy`): the line loop of `stream_chat`. Each reply line is a `RawLine`:
  empty, rejected by `json.loads` with `JSONDecodeError`, or a record with optional `content`,
  `done` and `eval_count`.
  - Empty lines and lines `json.loads` rejects are skipped.
  - Missing fields get their defaults.
  - The stream stops right after the first `done` record.
  - The transport's two failures (no connection, an HTTP error status) become `OllamaError`
    values.
- **Patterns** (`patterns.dfy`): `extract_tool_calls`.
  - The two regular expressions are written as a deterministic left-to-right scanner
    (`ParseAt`, `Scan`).
  - The scanner is proved equal to a declarative description of a match (`MatchesAt`) and of
    what `finditer` returns (`IsScan`).
- **Tools** (`tools.dfy`): the tool registry and `dispatch`.
- **Skills report** (`skills_report.dfy`):
  - `build_signature` over an abstract `ast.arguments` node, whose annotations and defaults are
    already unparsed text;
  - `parse_tools` over an abstract directory listing of already-parsed files: the sorted walk,
    the filename filter and the private-name filter.

`text.dfy` holds the string helpers:

- Python's whitespace test (the full Unicode set accepted by `str.isspace` and by `\s` in `re`);
- `str.strip`, `startswith`, `endswith` and `", ".join`.

`wrappers.dfy` holds `Option` and `Result`.

## Model

| member | source | states |
|---|---|---|
| Text.Strip | src/session.py:53 | the stripped text is empty exactly when the input is all whitespace; otherwise it starts and ends with a non-space; an input already free of surrounding whitespace is returned unchanged (that nothing else is removed is `StripIsSlice`) |
| Text.StripIsSlice | src/session.py:53 | `strip` removes the surrounding whitespace and nothing else: the result is the slice of the input that lies between a blank prefix and a blank suffix |
| Text.LeadingSpaces | src/patterns.py:46 | the number of leading whitespace characters: that prefix is blank, and the character after it, if any, is not whitespace |
| Text.TrimStart | src/patterns.py:46 | the first half of `.strip()` (the source calls only `strip`): what it drops from the front is all whitespace, and the result is a suffix of the input that does not start with a space |
| Text.TrimEnd | src/patterns.py:46 | the second half of `.strip()`: what it drops from the back is all whitespace, and the result is a prefix of the input that does not end with a space |
| Text.TrimBothEmpty | src/session.py:116 | stripping both ends leaves nothing exactly when the text is blank |
| Text.Join | src/skills_report.py:85 | joining no parts gives `""`, and a single part is returned as is |
| Text.JoinLength | src/skills_report.py:85 | the joined text is exactly as long as the parts plus one separator between each two of them |
| Text.JoinPartAt | src/skills_report.py:85 | every part appears, in order, at its offset: after the earlier parts and one separator each |
| Text.JoinSepAt | src/skills_report.py:85 | one separator follows every part but the last |
| Text.TrimmedAwayIsBlank | src/session.py:116 | a text that strips to nothing is blank |
| Stream.Chunks | src/session.py:90 | `full_response`: the items' chunks concatenated in order; its value on a stream is stated by `ItemsAreRecordsUpToDone` and `SuccessfulExchange` |
| Stream.TokenCount | src/session.py:92-93 | `token_count`: the `eval_count` (0 if missing) of the last item carrying metadata, 0 when none does; its value on a stream is stated by `TokenCountFromDoneRecord` and `NoMetaNoTokens` |
| Stream.Items | src/api.py:47-62 | at most one yielded item carries metadata, and only the last one; the last item carries metadata exactly when the lines hold a done record; no more items than lines |
| Stream.StreamChat | src/api.py:39-45 | a request fails exactly when there is no connection or the status is 400–599, with `CouldNotConnect` or `ApiError(status)`; on success the items are those of the line loop |
| Stream.ItemsAreRecordsUpToDone | src/api.py:47-62 | the items are exactly the records up to and including the first done record, mapped to `(content or "", meta)`; empty and undecodable lines give nothing |
| Stream.LinesAfterDoneIgnored | src/api.py:58-60 | lines after the first done record never change the items |
| Stream.NoDoneYieldsAllRecords | src/api.py:47-62 | without a done record every record yields its content and no item carries metadata |
| Stream.TokenCountFromDoneRecord | src/session.py:92-93 | the token count read from the stream is the `eval_count` of the first done record (0 if missing), and 0 when no record is done |
| Stream.FirstDoneEndsItems | src/api.py:58-60 | the last item is the one made from the first done record |
| Stream.NoMetaNoTokens | src/session.py:78 | with no metadata item the token count stays at its initial 0 |
| Tools.Dispatch | src/tools/__init__.py:22-27 | a registered name gives its handler's output for the arguments; any other name gives the not-found text naming that tool |
| Tools.NotFoundNamesTheTool | src/tools/__init__.py:25-26 | the tool name can be read back from the not-found text, so different names give different texts |
| Tools.DefaultRegistryFindsNothing | src/tools/__init__.py:19 | with the empty registry as shipped, every call returns the not-found text |
| Patterns.ParseAt | src/patterns.py:24-33 | one match attempt of a tag pattern at one position, as `finditer` makes at each position; what it reads is stated by `ParseAtSound`, `ParseAtComplete` and `NoMatchWhereParseFails` |
| Patterns.Scan | src/patterns.py:43 | `finditer` as a left-to-right scan: take the match at the position and go on from its end, or move one character on; stated by `ScanIsFinditer`, `ScanOrdered` and `FinditerIsUnique` |
| Patterns.Collect | src/patterns.py:46 | the dictionary comprehension: each argument match, in order, sets its key to its stripped value; stated by `CollectDomain` and `CollectLastWins` |
| Patterns.ArgsOf | src/patterns.py:46 | the arguments of a tool body: `Collect` over the argument matches `finditer` returns; stated by `ArgsWellFormed`, `ArgsOfOneMatch` and `SingleArg` |
| Patterns.SpanIsRun | src/patterns.py:25 | every character of a run is accepted, and the run stops at the first rejected character or at the end of the text |
| Patterns.FindFromIsFirst | src/patterns.py:25 | the lazy search finds the first occurrence of the closing literal, or reports that there is none |
| Patterns.ParseAtSound | src/patterns.py:24-33 | what the scanner reads at a position is a match of the pattern there |
| Patterns.ParseAtComplete | src/patterns.py:24-33 | every match of the pattern at a position is what the scanner reads there, so the match at a position is unique |
| Patterns.NoMatchWhereParseFails | src/patterns.py:24-33 | where the scanner reads nothing, the pattern has no match |
| Patterns.ScanIsFinditer | src/patterns.py:43 | the scan is `finditer`: the leftmost match at or after the position, then the scan from its end, and nothing when the pattern matches nowhere |
| Patterns.FinditerIsUnique | src/patterns.py:43 | the scanner's result is the only sequence meeting that description, so extraction is deterministic |
| Patterns.ScanTakesMatch | src/patterns.py:43 | a match at the current position is the next element, and scanning goes on from its end |
| Patterns.ScanOrdered | src/patterns.py:43 | every element is a match, the matches come out left to right, and they never overlap |
| Patterns.MatchIsGood | src/patterns.py:25 | a match's groups lie in the text, the name is non-empty without a quote, and the body holds no closing literal |
| Patterns.FindAll | src/patterns.py:43 | every match `finditer` returns on the whole text has those properties |
| Patterns.ExtractToolCalls | src/patterns.py:36-47 | one call per tool match; every tool name is non-empty and holds no `"` |
| Patterns.CollectDomain | src/patterns.py:46 | a key is in the argument dictionary exactly when some argument match names it |
| Patterns.CollectLastWins | src/patterns.py:46 | a repeated key keeps the stripped value of its last argument match |
| Patterns.ArgsWellFormed | src/patterns.py:46 | argument keys are non-empty and quote-free, and values have no surrounding whitespace |
| Patterns.NoToolTagNoCalls | src/patterns.py:43 | text without an opening or without a closing tool tag yields no calls |
| Patterns.SingleTag | src/patterns.py:24-43 | a text made of text before, one well-formed tag (with any further attributes the pattern allows) and text after, where no opening literal starts before or after the tag, gives exactly one match, spanning the tag, whose name and body are the tag's own |
| Patterns.ArgsOfOneMatch | src/patterns.py:46 | a single argument match gives the dictionary with only its key and stripped value |
| Patterns.SingleArg | src/patterns.py:30-33 | a body made of one argument tag with text before and after it in which no `<arg` starts gives the dictionary with only that key and its stripped value |
| Patterns.SingleCall | src/patterns.py:43-47 | a model reply made of one tool tag (with any further attributes) with text before and after it in which no `<tool` starts gives exactly one call, with the tag's name and the arguments of its body |
| Patterns.ExampleCall | src/patterns.py:8 | the documented example gives exactly the call `search` with `{"query": "latest AI news"}` |
| SkillsReport.RenderReadsBack | src/skills_report.py:67-70 | for a name holding neither `:` nor `=` and an annotation holding no `=`, the name, the annotation (or its absence) and the default (or its absence) read back unchanged from the rendered `name[:annotation][=default]` |
| SkillsReport.DefaultOf | src/skills_report.py:63-69 | the default of positional argument `i`, aligned to the tail of `args`; stated by `DefaultsAlignToTail` |
| SkillsReport.SignatureParts | src/skills_report.py:66-83 | the rendered parameters in signature order; stated by `PartsInOrder`, `PartsReadBack` and `NoParametersEmptySignature` |
| SkillsReport.PositionalParts | src/skills_report.py:66-70 | one part per positional argument |
| SkillsReport.KeywordParts | src/skills_report.py:76-79 | one part per keyword-only argument |
| SkillsReport.BuildSignature | src/skills_report.py:59-85 | the loops build the signature parts in order, joined by `", "` |
| SkillsReport.RenderPositional | src/skills_report.py:63-70 | the loop over `args` renders each argument with its annotation and its tail-aligned default |
| SkillsReport.RenderKeywordOnly | src/skills_report.py:76-79 | the loop over `kwonlyargs` renders each argument with its `kw_defaults` entry when present |
| SkillsReport.DefaultsAlignToTail | src/skills_report.py:63-69 | positional argument `i` has a default exactly when `i >= num_args - num_defaults`, and it is `defaults[i - (num_args - num_defaults)]` |
| SkillsReport.PartsInOrder | src/skills_report.py:66-83 | the parts are the positional arguments, then `*vararg` if any, then the keyword-only arguments, then `**kwarg` if any, each part at its index |
| SkillsReport.PartsReadBack | src/skills_report.py:67-79 | every positional or keyword-only part whose argument's name holds neither `:` nor `=` and whose annotation holds no `=` reads back to that argument's name, annotation and default |
| SkillsReport.NoParametersEmptySignature | src/skills_report.py:85 | the parts are empty exactly when there are no parameters, and then the signature is `""` |
| SkillsReport.IsToolFile | src/skills_report.py:33 | the file-name filter: ends in `.py` and not in `.example.py`; stated by `OnlyToolFilesContribute` and `ExampleFilesExcluded` |
| SkillsReport.IsPublic | src/skills_report.py:49-50 | a function is reported when its name does not start with `_`; stated by `EntriesAreReported` and `ReportedAreEntries` |
| SkillsReport.SortByName | src/skills_report.py:32 | `sorted` on the listing, by file name; stated by `SortByNameSorts` |
| SkillsReport.LexLeTotal | src/skills_report.py:32 | the name order used by `sorted` is total |
| SkillsReport.InsertPermutes | src/skills_report.py:32 | inserting a file into the listing keeps the same files |
| SkillsReport.InsertSorted | src/skills_report.py:32 | inserting into a sorted listing keeps it sorted |
| SkillsReport.SortByNameSorts | src/skills_report.py:32 | the listing is visited in name order, and each file is visited as often as it is listed |
| SkillsReport.ParseTools | src/skills_report.py:27-56 | the loop's entries are those of the files in name order: non-tool files and files that do not parse are skipped |
| SkillsReport.ParseFile | src/skills_report.py:46-54 | one parsed file gives the entries of its public functions in walk order, each with its signature and its docstring or `""` |
| SkillsReport.EntriesAreReported | src/skills_report.py:33-54 | every entry comes from a public function of a tool file that parses |
| SkillsReport.ReportedAreEntries | src/skills_report.py:33-54 | every public function of every tool file that parses has its entry |
| SkillsReport.ReportIsExactlyThePublicToolFunctions | src/skills_report.py:27-56 | `parse_tools` reports exactly the public functions of the tool files that parse, whatever the order of the listing |
| SkillsReport.OnlyToolFilesContribute | src/skills_report.py:33-34 | a file that is not `.py`, or is `.example.py`, gives no entries |
| SkillsReport.ExampleFilesExcluded | src/skills_report.py:33 | a `.example.py` file ends in `.py` but is never processed; `stem.py` is processed exactly when the stem does not end in `.example` |
| Session.CommandOf | src/session.py:53-68 | the command `_handle_command` reads from the stripped text: exit for `/exit` or `exit`, then `/clear`, `/model`, `/help`, and unknown otherwise; stated by `ExitLines` and `TrailingSpaceExitEnds` |
| Session.ApplyCommand | src/session.py:53-68 | a command's effect: exit stops, `/clear` empties the history, the others change nothing; stated by `ClearEmptiesHistory`, `OtherCommandsChangeNothing` and `ExitEndsSession` |
| Session.KindOf | src/session.py:116-124 | the routing of a line: blank, command (starts with `/` or is exactly `exit`), or chat; stated by `BlankLinesSkipped`, `ExitLines`, `PaddedExitIsChat` and `IndentedExitIsChat` |
| Session.Step | src/session.py:116-142 | one pass of the loop body on a state; stated by `StepKeepsConsistent`, `CommandsNeverReachHistory`, `FailedExchangeRollsBack`, `SuccessfulExchange` and `TokensShownWhenNonZero` |
| Session.Converse | src/session.py:127-142 | an exchange on a state: unchanged on failure, the two turns, the log entry and the count on success; stated by `ConverseKeepsConsistent` and `SuccessfulExchange` |
| Session.RunLines | src/session.py:110-144 | the loop over the lines read, up to the one that ends it; stated by `RunKeepsConsistent` and `TwoMessagesPerExchange` |
| Session.RunSession | src/session.py:107-146 | the loop followed by the closing log entry; stated by `RunKeepsConsistent` and `FreshSessionHistory` |
| Session.ChatSession.constructor | src/session.py:29-35 | a new session has an empty history, a zero counter and an empty log |
| Session.ChatSession.HandleCommand | src/session.py:51-68 | the state after `_handle_command` and its result are those of the command on the stripped text: exit stops, `/clear` empties the history, everything else changes nothing and continues; the session stays consistent |
| Session.ChatSession.StreamResponse | src/session.py:72-103 | the accumulated response is the concatenation of all chunks and the token count is that of the metadata item; a stream error is raised unchanged |
| Session.ChatSession.HandleLine | src/session.py:116-144 | one pass of the loop body moves the session from its state to `Step` of that state and line, and keeps it consistent |
| Session.ChatSession.Chat | src/session.py:127-142 | an exchange moves the session to the state `Converse` gives: rollback on failure, or the two turns, the log entry and the count on success; the session stays consistent |
| Session.ChatSession.Run | src/session.py:107-146 | `run` keeps the session consistent and ends in the state the line-by-line specification gives, with the closing log entry |
| Session.BlankLinesSkipped | src/session.py:116-117 | a line is skipped exactly when it is blank |
| Session.ExitLines | src/session.py:53-55 | the loop ends exactly on `exit` or on a line starting with `/` that strips to `/exit` |
| Session.PaddedExitIsChat | src/session.py:120 | `exit ` is not a command and is sent to the model |
| Session.IndentedExitIsChat | src/session.py:120 | ` /exit` is not a command and is sent to the model |
| Session.TrailingSpaceExitEnds | src/session.py:53-55 | `/exit ` ends the session |
| Session.BlankLineChangesNothing | src/session.py:116-117 | a blank line changes neither history, counter nor log, and the loop goes on |
| Session.CommandStep | src/session.py:120-124 | a command line is never blank and is handled by `_handle_command` |
| Session.ChatStep | src/session.py:126-130 | a non-blank, non-command line runs an exchange |
| Session.CommandsNeverReachHistory | src/session.py:120-124 | a command never adds to the history, counter or log and prints no token count |
| Session.ClearEmptiesHistory | src/session.py:56-59 | `/clear` empties the history, keeps the counter and the log, and the loop goes on |
| Session.OtherCommandsChangeNothing | src/session.py:60-68 | `/model`, `/help` and unknown commands change nothing, and the loop goes on |
| Session.ExitEndsSession | src/session.py:121-123 | the loop stops exactly on an exit command, and stopping changes nothing |
| Session.FailedExchangeRollsBack | src/session.py:127-134 | on a stream error the state is exactly as before the line |
| Session.SuccessfulExchange | src/session.py:127-139 | on success the history gains the user turn and then the full response (every chunk up to the done record, in order), the counter rises by one and one exchange is logged |
| Session.TokensShownWhenNonZero | src/session.py:141-142 | a token count is printed exactly after a successful exchange whose count is non-zero, and it is the first done record's `eval_count` |
| Session.LogOnlyGrows | src/session.py:138 | the log is only ever appended to |
| Session.StepKeepsConsistent | src/session.py:116-142 | every line keeps the history alternating user/assistant and the counter equal to the exchanges logged |
| Session.ConverseKeepsConsistent | src/session.py:127-139 | an exchange keeps that invariant |
| Session.ExchangeKeepsConsistent | src/session.py:137-139 | appending the two turns, logging and counting keep that invariant |
| Session.ExchangeCountAppend | src/session.py:138-139 | logging an exchange adds one to the exchanges logged, and the closing entry adds none |
| Session.RunKeepsConsistent | src/session.py:107-146 | a whole session keeps the invariant, closing entry included |
| Session.StepWithoutClear | src/session.py:116-142 | any line other than `/clear` adds two messages per exchange it completes and drops none |
| Session.TwoMessagesPerExchange | src/session.py:110-142 | without `/clear`, the history grows by exactly two messages per successful exchange |
| Session.FreshSessionHistory | src/session.py:107-146 | a fresh session without `/clear` ends with `2N` alternating messages after `N` exchanges, and `N` exchanges logged |

## Left out

- Signal handling (`SIGINT`/`SIGTERM` and the interrupt handler): asynchronous interruption. The
  model ends the loop only when an exit command arrives or the input runs out.
- Terminal presentation: the spinner, the `first_token` flag, every `print_*` call and reading
  the input. The input lines are given as a sequence.
- The log file's writes and timestamps. The log is a ghost list of exchange and end-of-session
  entries. The interrupt event is not modelled.
- The HTTP request, its payload, its timeout and `json.loads`:
  - each reply is given as its status and its already-decoded lines;
  - a line that is valid JSON but not an object is not modelled;
  - a record whose fields have other JSON types is not modelled: `done` is a boolean and `content`
    a string, so a truthy non-boolean `done` (`1`, `"false"`) that ends the stream, or a
    `"message": null` that raises `AttributeError`, cannot be expressed;
  - a line that is not valid UTF-8 makes `json.loads` raise `UnicodeDecodeError`, which the loop
    does not catch; such a line is not modelled (`Malformed` stands only for `JSONDecodeError`);
  - nor are exceptions other than `OllamaError`.
- The texts of the two `OllamaError`s are not modelled; an API error keeps only its status.
- `os.listdir`, reading files, `ast.parse`, `ast.unparse` and `ast.get_docstring`. The listing
  is given as already-parsed files, and annotations, defaults and docstrings as text.
- Collect: the argument dictionary is a `map`, so the order in which a Python `dict` keeps its
  keys (first insertion) is not modelled; keys and values are.
- The order of `ast.walk`: each file's function definitions are given in walk order.
- The message printed for a file with a syntax error.
- `render_report`, the command-line entry points and `main.py`.
- Tool handler bodies: handlers are total functions of their arguments. Tool results are not fed
  back into the history, because the session never does so.
- `posonlyargs` has no field in the `arguments` datatype, because `build_signature` never reads
  it. Defaults longer than `args` are handled by the tail alignment.
- `dispatch` reads the registry but never changes it. The registry is a value passed in, so
  there is nothing to state about changes to it.
- The session's model name is kept but never sent, because the request is not modelled.

Whitespace is Python's full Unicode whitespace set, the set `str.strip` and `\s` use, rather
than an ASCII subset.

Routing tests the raw line, while `_handle_command` strips it. As a result, ` /exit` (leading
space) and `exit ` (trailing space) are sent to the model as chat lines, but `/exit ` ends the
session. The model keeps this behaviour (`IndentedExitIsChat`, `PaddedExitIsChat`,
`TrailingSpaceExitEnds`).
