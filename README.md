# Insight pipeline of insights-platform, in Dafny

This project models the backend core of insights-platform. A user uploads a
spreadsheet, CSV or text file. The backend stores it under a generated file
id and returns a short preview. Later it samples the file, asks a language
model for three insights about the sample, recovers a JSON list from the
model's free-form reply, validates each entry into an `Insight` record, and
keeps the insights of each file id in an insights file.

Modules, one per source file plus shared helpers:

- `Outcomes`: `Option`, `Result` and the pipeline's error cases.
- `JsonValues`: JSON documents as `json.loads` returns them.
- `Strings`: whitespace as `str.isspace` defines it, ASCII `lower()`, the first and last index of a character, prefixes, and `str(n)`.
- `Frames`: the small part of a pandas DataFrame the pipeline uses (`head`, `fillna`, a one-column text frame).
- `Utils` (utils.py): the file id, path resolution, the insights path, the extension of an upload, and the `os.path.join` / `os.path.splitext` behaviour these paths go through.
- `Schemas` (schemas.py): the record types, and pydantic validation of an `Insight`.
- `McpClient` (mcp_client.py): the prompt template, and the recovery of the JSON list from the reply. The recovery runs in five steps: a fenced-block search, a strip, a left trim to the first `[`, a right trim after the last `]`, and `json.loads`.
- `Services` (services.py): extension dispatch, bounded reading of tables and text files, the preview, insight assembly (a method with the source's loop), generation, and the insight store (a class holding a map of insights files).

Everything external is a parameter:

- The remote model call is `complete: string -> string`.
- `DataFrame.to_string(index=False)` is `render`.
- `json.loads` is `parse: string -> Option<seq<Json>>`. A successful parse is always a list, because the text handed to it is empty or starts with `[`.
- The pandas readers are `readTable`.
- The file system is a map from path to decoded text. A value of `None` means the file exists but does not decode as text.

Behaviour of the code worth noting:

- Text files keep blank lines. `readlines` drops nothing, so a blank line is a row of the sample.
- A tabular preview reads at most 20 rows (the default `nrows` of `_read_dataframe`) and then cuts to `limit`. It is not a plain read of `limit` rows.
- Generation's text set is written `{".txt", "docx"}`, so `.docx` would never match it; no extension `splitext` yields ever equals `"docx"`.
- Generation always resolves the path with the default extension `xlsx`, so its text branch is never reached.
- `read_word_text_file` never uses its Word-document branch.
- `FileNotFoundException` and `InsightsNotFoundException`, imported at backend/src/services.py:12-16, are not defined in exceptions.py, so that import raises ImportError and services.py cannot be imported as written. The model uses the error datatype instead.

## Model

| member | source | states |
|---|---|---|
| Utils.GenerateFileId | backend/src/utils.py:21 | the id has the uuid's length, every `-` becomes `_` and every other character is kept, and no `-` remains |
| Utils.GeneratedIdIsPlain | backend/src/utils.py:17-21 | an id made from a canonical uuid text has 36 characters and no `/`, `.` or `-` |
| Utils.Join | backend/src/utils.py:26 | `os.path.join` ends with its second argument; a second argument starting with `/` is returned unchanged, so an id such as `/etc/x` leaves the directory; a relative name goes under a directory with one `/` |
| Utils.ResolveFilePath | backend/src/utils.py:24-26 | the path is never empty, ends in `.` + ext, and is `media/{id}.{ext}` for a relative id |
| Utils.DefaultPathIsXlsx | backend/src/utils.py:24-26 | with the default extension the path always ends in `.xlsx` |
| Utils.GenerationPathExtension | backend/src/utils.py:24-26 | with the default extension, the lower-cased splitext extension is `.xlsx` when the id has a non-dot character and empty otherwise |
| Utils.InsightsPath | backend/src/utils.py:29-33 | the insights path ends in `{id}.json`, and for a relative id under a directory it is `insightDir/{id}.json` |
| Utils.InsightsPathInjective | backend/src/utils.py:29-33 | under one directory, two ids without `/` share an insights path only when they are equal |
| Utils.InsightsPathCollision | backend/src/utils.py:29-33 | an id carrying the directory as a prefix maps to the same insights path as the bare id |
| Utils.ExtensionOf | backend/src/utils.py:37 | the extension holds no `.`, is a suffix of the name that follows a `.`, and is the whole name exactly when the name has no `.` |
| Utils.SavedPath | backend/src/utils.py:37-38 | the upload is written to a path ending in `.` + the name's extension, `media/{id}.{ext}` for a relative id |
| Utils.SplitExt | backend/src/services.py:58 | `os.path.splitext(p)[1]` is empty, or a `.` followed by text without `.` or `/` that ends `p` |
| Utils.SplitExtOfComponent | backend/src/services.py:58 | for a last path component `name.ext`, splitext gives `.ext` when `name` has a non-dot character and nothing otherwise |
| Utils.SavedPathExtension | backend/src/utils.py:37-38 | a saved upload's path yields, through splitext and lower, `.` + the lower-cased extension of the uploaded name |
| Utils.ResolvedExtension | backend/src/utils.py:24-26 | for a plain id, splitext and lower of `resolve_file_path(id, ext)` give `.` + lower(ext) |
| Schemas.IntItems | backend/src/schemas.py:34-36 | a JSON list converts to `list[int]` exactly when every element is an integer, element by element |
| Schemas.MakeInsight | backend/src/schemas.py:28-36 | construction succeeds exactly when title and description are strings, the score a number and the rows a list of integers, and then carries those values; otherwise it names an invalid field |
| Schemas.ConfidenceIsUnchecked | backend/src/schemas.py:31-33 | any score, inside [0, 1] or not, builds an insight |
| Schemas.ToRecord | backend/src/services.py:166 | `insight.dict()` is a dictionary whose keys are exactly the four `Insight` fields |
| Schemas.FromRecord | backend/src/schemas.py:28-36 | `Insight(**item)` succeeds only on a dictionary holding all four fields, and on such a dictionary it is exactly the typed construction of those four values; failures are invalid entries |
| Schemas.RecordRoundTrip | backend/src/schemas.py:28-36 | validating `insight.dict()` gives back the same insight |
| Schemas.ExtraFieldsIgnored | backend/src/schemas.py:28-36 | keys other than the four fields do not change validation |
| Frames.Head | backend/src/services.py:70 | `head(n)` keeps the columns and the first min(n, rows) rows |
| Frames.FillNa | backend/src/services.py:70 | `fillna("")` keeps the columns and the row count and fills each row's missing cells |
| Frames.TextFrame | backend/src/services.py:64 | a line list becomes one row per line under the single column "text" |
| McpClient.PromptData | backend/src/mcp_client.py:26-34 | a string is used as it is, an object with `to_string` is rendered, and anything else, and only that, is the invalid-prompt error |
| McpClient.FullPrompt | backend/src/mcp_client.py:36-49 | the prompt starts with the fixed instruction and ends with the closing indentation, and the data can be cut back out of it unchanged |
| McpClient.InstructionAsks | backend/src/mcp_client.py:37-45 | the instruction asks for 3 insights in strict JSON and for raw JSON only |
| McpClient.InstructionListsFields | backend/src/mcp_client.py:39-43 | the instruction contains a line for each of the four `Insight` fields, naming the field |
| McpClient.GenerateAiInsights | backend/src/mcp_client.py:26-95 | a string prompt is used as is, a table is rendered, anything else is an invalid prompt; a success is what the parser made of the cleaned reply to the full prompt |
| McpClient.Strip | backend/src/mcp_client.py:86 | the result is a piece of the input with only whitespace around it, and neither starts nor ends with whitespace |
| McpClient.LeftTrim | backend/src/mcp_client.py:87 | the result is a suffix of the input, is empty or starts with `[`, and only `[`-free text was removed |
| McpClient.RightTrim | backend/src/mcp_client.py:88 | the result is a prefix of the input, is empty or ends with `]`, and only `]`-free text was removed |
| McpClient.BracketTrim | backend/src/mcp_client.py:87-88 | the two trims in order; no contract of its own, its meaning is stated by `McpClient.BracketTrimSpan` and `McpClient.BracketTrimShape` |
| McpClient.BracketTrimSpan | backend/src/mcp_client.py:87-88 | the two trims keep exactly the text from the first `[` to the last `]`, or nothing when there is no `[` before a later `]` |
| McpClient.BracketTrimEmpty | backend/src/mcp_client.py:87-88 | the trims leave nothing exactly when no `[` comes before a `]` |
| McpClient.Delimited | backend/src/mcp_client.py:82-88 | text that starts with `[` and ends with `]`, such as a fence body, is left as it is by the trims |
| McpClient.BracketTrimShape | backend/src/mcp_client.py:87-88 | the trimmed text is a contiguous piece of the input, is empty or bracket-delimited, and trimming it again changes nothing |
| McpClient.StripThenTrim | backend/src/mcp_client.py:86-88 | stripping whitespace first never changes what the trims keep |
| McpClient.Trim | backend/src/mcp_client.py:86-88 | strip, then the two trims; no contract of its own, stated by `McpClient.StripThenTrim` and `McpClient.TrimIdempotent` |
| McpClient.TrimIdempotent | backend/src/mcp_client.py:86-88 | cleaning an already cleaned text changes nothing |
| McpClient.OpenAfterTicks | backend/src/mcp_client.py:82 | after the backticks, the position it returns holds the `[` that opens the body |
| McpClient.ShortestClose | backend/src/mcp_client.py:82 | the end it returns lies at or after the search start and follows a `]` |
| McpClient.ShortestCloseSpec | backend/src/mcp_client.py:82 | the lazy body ends at the first `]` followed by whitespace and three backticks |
| McpClient.FenceAt | backend/src/mcp_client.py:82 | a result is a fence at exactly the given position, with a body from `[` to `]` |
| McpClient.FenceAtSpec | backend/src/mcp_client.py:82 | at one position the scan finds a match of the fence pattern, with the only possible body start and the shortest body, or reports none when none exists |
| McpClient.SearchFence | backend/src/mcp_client.py:82 | a result is a fence at or after the start position, with a body from `[` to `]` |
| McpClient.SearchFenceSpec | backend/src/mcp_client.py:82 | `re.search` finds the leftmost match with the shortest body, or nothing when the pattern matches nowhere |
| McpClient.ChosenText | backend/src/mcp_client.py:82-83 | the fence body when a fence is found, the stripped reply otherwise; no contract of its own, stated by `McpClient.CleanReplyFence` and `McpClient.CleanReplyNoFence` |
| McpClient.CleanReply | backend/src/mcp_client.py:82-88 | the text handed to `json.loads`; no contract of its own, stated by `McpClient.CleanReplyFence`, `McpClient.CleanReplyNoFence` and `McpClient.CleanReplyShape` |
| McpClient.Recover | backend/src/mcp_client.py:90-95 | recovery succeeds exactly when the cleaned reply parses, with the parsed list; otherwise it is the parse error |
| McpClient.CleanReplyFence | backend/src/mcp_client.py:82-88 | with a fenced block, exactly its body is parsed |
| McpClient.CleanReplyNoFence | backend/src/mcp_client.py:83-88 | without one, the reply cut to its outermost brackets is parsed |
| McpClient.CleanReplyShape | backend/src/mcp_client.py:82-88 | the parsed text is a contiguous piece of the reply, and is empty or bracket-delimited |
| McpClient.RecoverIgnoresNoise | backend/src/mcp_client.py:82-90 | with no backtick anywhere, prose without `[` before a bracketed payload and without `]` after it is ignored, so the payload alone is parsed |
| McpClient.RecoverNeedsBrackets | backend/src/mcp_client.py:87-95 | when empty text does not parse, a reply lacking `[` or `]` fails with the parse error instead of giving an empty list |
| Services.PreviewFamily | backend/src/services.py:60-68 | the preview's sets; no contract of its own, stated by `Services.FamiliesDiffer` and `Services.PreviewUnsupported` |
| Services.GenerationFamily | backend/src/services.py:88-102 | the generation sets, text written `{".txt", "docx"}`; no contract of its own, stated by `Services.FamiliesDiffer` and `Services.GenerationTextOnlyTxt` |
| Services.FamiliesDiffer | backend/src/services.py:60-91 | preview and generation dispatch agree except on `.docx`, which only the preview reads, and the undotted `docx` |
| Services.GenerationTextOnlyTxt | backend/src/services.py:85-91 | on a real extension, generation's text branch is taken for `.txt` only |
| Services.ReaderFor | backend/src/services.py:193-195 | the case-sensitive suffix test that picks the Excel or CSV reader; no contract of its own, stated by `Services.UpperCaseExcelReadAsCsv` |
| Services.ReadDataframe | backend/src/services.py:190-198 | a table is read with the reader the suffix picks; a missing file and a reader error are both errors |
| Services.UpperCaseExcelReadAsCsv | backend/src/services.py:193-195 | an upload saved as `.XLSX` is previewed through the tabular branch but parsed by the CSV reader |
| Services.Universal | backend/src/services.py:154 | universal-newline translation leaves no `\r` and leaves text without `\r` unchanged |
| Services.UniversalAppend | backend/src/services.py:154 | translation works piece by piece wherever the cut does not split a `\r\n` |
| Services.CrLfReadsAsNewline | backend/src/services.py:154 | each `\r\n` reads as one `\n` |
| Services.LoneCrReadsAsNewline | backend/src/services.py:154 | a `\r` not followed by `\n` reads as one `\n` |
| Services.SplitLines | backend/src/services.py:154-155 | `readlines` gives well-formed lines, blank ones included, that put together give back the text |
| Services.SplitConcat | backend/src/services.py:154-155 | splitting well-formed lines that were put together gives them back, so the split is unique |
| Services.ReadWordTextFile | backend/src/services.py:132-156 | a missing or undecodable file is an error; otherwise the first min(count, n) lines in order, whose text is a prefix of the file's text after newline translation (`Services.Universal`: each `\r\n` and each lone `\r` becomes `\n`) |
| Services.ReadBackLines | backend/src/services.py:151-156 | a file written as well-formed lines reads back as `lines[:count]` |
| Services.PreviewFrame | backend/src/services.py:58-68 | the frame built before `head`; no contract of its own, stated by `Services.ExtractDataPreview`, `Services.PreviewUnsupported` and `Services.PreviewOfTextFile` |
| Services.ExtractDataPreview | backend/src/services.py:53-72 | the preview has the frame's columns and its first min(limit, rows) rows with missing cells filled by "", none left missing; read errors pass through |
| Services.PreviewUnsupported | backend/src/services.py:58-68 | the preview fails with the extension exactly when it lies outside both families |
| Services.PreviewOfTextFile | backend/src/services.py:62-72 | a readable text file previews as one "text" column holding its first `limit` lines |
| Services.TabularPreviewCap | backend/src/services.py:60-61 | with a reader that honours `nrows`, a tabular preview never exceeds 20 rows whatever the limit |
| Services.GenerationSample | backend/src/services.py:80-102 | the frame generation hands to the model; no contract of its own, stated by `Services.GenerationReadsTable` |
| Services.GenerationReadsTable | backend/src/services.py:80-91 | generation reads the id's `.xlsx` file as a table, and fails as unsupported only when the id's last component is all dots |
| Services.BuildInsight | backend/src/services.py:117-124 | an entry builds exactly when it is a dictionary whose present fields have the right types; present fields give the insight's title, description, score and rows, absent ones take the defaults |
| Services.DefaultTitle | backend/src/services.py:119 | the default title is `Insight ` followed by exactly `str(i + 1)`: digits that spell i + 1, with no leading zero |
| Strings.DecimalString | backend/src/services.py:119 | `str(n)`: a non-empty run of digits that spells `n`, with no leading zero |
| Services.EmptyEntryDefaults | backend/src/services.py:118-123 | an empty entry becomes `Insight {i+1}`, "", 0.9, [] |
| Services.NullTitleRejected | backend/src/services.py:119 | an explicit null title is not defaulted, and the entry fails |
| Services.Built | backend/src/services.py:116-124 | one loop-body outcome per entry of `ai_response[:count]`, indexed by its position |
| Services.SurvivorsSources | backend/src/services.py:115-127 | the collected insights are exactly the entries that built, in reply order |
| Services.SurvivorsAllOk | backend/src/services.py:115-127 | when every entry builds, all of them are kept in order |
| Services.AssembledStep | backend/src/services.py:116-127 | each entry appends its insight when it builds and nothing otherwise |
| Services.AssembleInsights | backend/src/services.py:115-127 | the loop collects the insights of the first `count` entries, never more than `count` |
| Services.Generated | backend/src/services.py:75-129 | a failing sample fails generation with the same error, and a success holds at most `count` insights |
| Services.GenerateInsights | backend/src/services.py:75-129 | generation is the sample, the model call and the assembly in sequence, with at most `count` insights |
| Services.GenerationParseFailure | backend/src/services.py:106 | a reply that does not parse fails generation with the parse error |
| Services.EncodeInsights | backend/src/services.py:166 | the written document is the list of the insights' dictionaries, in order |
| Services.DecodeItems | backend/src/services.py:182 | a loaded list converts only when every entry validates, entry by entry |
| Services.DecodeDocument | backend/src/services.py:180-187 | a list decodes exactly when every entry validates; `{}` and `""` iterate to no entries and decode to the empty list; any other failure or non-list is a corrupt record |
| Services.EncodeDecode | backend/src/services.py:159-182 | what `persist_insights` writes, `retrieve_saved_insights` reads back unchanged |
| Services.InsightStore.Retrieve | backend/src/services.py:173-187 | an id without an insights file is not found; an id with one gets exactly the decoding of that record, so a corrupt record is never reported as not found |
| Services.InsightStore.Persist | backend/src/services.py:159-170 | the id's record is replaced, the id then reads back the new insights, and ids with other paths read what they read before |
| Services.DistinctIdsDistinctRecords | backend/src/utils.py:29-33 | two different ids without `/` never share a record |

## Left out

- The remote model call, the network client and its logging are left out (backend/src/mcp_client.py:9-12, 50-64). The reply is `complete(prompt)`. A reply whose content is `None` is not modelled.
- pandas, python-docx and `json.loads` are foreign code and are parameters. The model covers the pandas calls the pipeline makes: `head`, `fillna`, the text frame, and the choice of reader.
- Services.ReadDataframe: `nrows` is handed to the reader. Lemmas that need the row bound take it as the hypothesis `ReadsAtMost`.
- Services.ReadWordTextFile: the Word-document branch is not modelled. It is unreachable, because `ext` is the boolean from `endswith` and never equals `".docx"`. A `.docx` upload is read as text and usually fails to decode.
- Services.ReadWordTextFile: the platform text encoding is not modelled. A file either decodes to text or does not.
- File writes, the upload's byte copy and the import-time `mkdir` are I/O and are left out (backend/src/utils.py:13-14, 40-41). `process_upload` and `save_uploaded_file` are also left out. Only the path computation of `save_file` is modelled (`Utils.SavedPath`).
- uuid4 randomness is left out. The uuid text is a parameter of `Utils.GenerateFileId`.
- Utils.InsightsPath: pathlib's normalisation of repeated or trailing separators and `.` components is not modelled. `Utils.Join` is the plain POSIX join.
- Strings.Lower: only ASCII case folding is modelled, not Unicode `str.lower()`.
- Schemas.MakeInsight: validation is strict. pydantic's lax coercions are not modelled, for example the string "3" to an int or `true` to a float.
- Services.InsightStore: records are JSON documents already parsed. A file that is not valid JSON at all is not modelled. It would surface as the same corrupt-record error.
- Persisting after generation is left out (backend/src/routes.py:79-80). The route builds a `BackgroundTasks` object that is never attached to the response, so nothing runs `persist_insights`. `Services.InsightStore.Persist` models the function itself.
- `count` and `limit` are natural numbers. Python's negative slicing is left out, and callers only pass the defaults.
- The confidence score is a `real`. Binary floating point, such as the exact value of 0.9, is left out.
- The `generate_insights` stub in backend/src/utils.py:45-53 does nothing and is left out. So are the HTTP routes, the app setup and the unused SQLModel tables.
- The code has no line-per-insight fallback.
