# TikTok user search: pagination, response normalisation and export

This project models the core of a TikTok user scraper. It has three parts:

- **Continuation helpers** (`Pagination`). They read a decoded search payload and answer two questions: are there more pages (`get_has_more_flag`), and which cursor comes next (`get_next_cursor`). A third helper decides whether another page is wanted (`should_continue_pagination`).
- **Search client** (`TikTokParser`).
  - The response normaliser turns one payload into flat user records. Each record has exactly ten keys; entries without an identity are dropped.
  - The pagination loop fetches pages until the limit is reached, the server stops signalling more pages, a page comes back empty, or no cursor is given.
  - The HTTP fetch is an oracle, `Server`: a function from the call number, the cursor and the page size to the decoded payload. `JNull` stands for the `None` a failed fetch returns. The loop's fetches and pauses are recorded in a ghost trace.
- **Exporter** (`DatasetExporter`).
  - The XML writer: it escapes the five markup characters, builds the lines and joins them with newlines.
  - `export`: it validates the records and the format name, maps the format to an extension and builds the output path.

`PyRuntime` holds the slice of Python's semantics these rely on:

- JSON values as `json.loads` returns them, with dict items kept in insertion order;
- truthiness, `isinstance(v, int)` (which includes `bool`), `dict.get`, and `or` chains;
- `str.isdigit`/`int`, `str.lower`, `str.replace`, `str.join`, and POSIX `os.path.join`.

It also defines `Split`, which the source never calls: it is the inverse of the newline `str.join`, used only to state that the XML text loses no line (`XmlDocumentLines`).

Python is imperative throughout, but only four parts of the core change local state step by step: the `for entry in user_list` loop of `_parse_users_from_response`, the `search_users` loop, its inner append loop, and the nested loops of `_export_xml`. Those are methods with loop invariants (`ParseUserList`, called by `ParseUsersFromResponse`; `SearchUsers`; `AppendWithinLimit`; `ExportXml`). Each is proved equal to a specification function (the recursive `ParseEntries`, `SearchRun`, `Take`, `XmlDocument`), and the properties are proved as lemmas about those functions. Everything else in the core computes a value from its inputs and is modelled as functions.

The class docstring of `TikTokUserScraper` (src/extractors/tiktok_parser.py:18-22) says that unexpected response shapes produce fewer or no records without raising. The code does raise `AttributeError` when a fetched payload decodes to something other than a dict or `null`, such as a JSON list: line 121 calls `payload.get`, which a list does not have, and `search_users` does not catch the error. The model follows the code: `ParseUsers` returns `Err(AttributeError("get"))`, and `search_users` ends with that error.

## Model

| member | source | states |
|---|---|---|
| Pagination.FlagSignal | src/extractors/utils_pagination.py:13-17 | a candidate speaks about "more pages" exactly when it is an int or a bool, and then by its truthiness |
| Pagination.HasMoreFlag | src/extractors/utils_pagination.py:3-27 | false for a non-dict payload; an int-valued top-level `hasMore` decides alone; true only if `hasMore` or a nested `has_more`/`hasMore` is truthy |
| Pagination.TopLevelNonIntIgnored | src/extractors/utils_pagination.py:13-19 | a top-level `hasMore` that is neither int nor bool has the same effect as no key at all |
| Pagination.NestedFallThrough | src/extractors/utils_pagination.py:19-25 | when the top level does not decide: a falsy `data.has_more` falls through to `data.hasMore`; a truthy int or bool one yields true; a truthy non-int one hides `data.hasMore` and yields false |
| Pagination.HasMoreFlagExamples | src/extractors/utils_pagination.py:3-27 | concrete payloads: `hasMore: 1`, `hasMore: 0`, `{}`, nested bool, nested fall-through, nested string |
| Pagination.CursorValue | src/extractors/utils_pagination.py:41-44 | a candidate yields a cursor exactly when it is an int or an all-digit string, and the string yields its decimal value |
| Pagination.NextCursor | src/extractors/utils_pagination.py:29-54 | a result is always an int from a dict payload; a usable top-level `cursor` wins; otherwise the result is `data.cursor`'s value when `data` is a dict, and nothing when it is not |
| Pagination.NonDigitStringCursor | src/extractors/utils_pagination.py:43-52 | a non-digit string cursor yields nothing, at either position |
| Pagination.DecimalCursorRoundTrip | src/extractors/utils_pagination.py:43-52 | a cursor sent as `str(n)` reads back as `n`, at either position |
| Pagination.NextCursorExamples | src/extractors/utils_pagination.py:29-54 | concrete payloads: int, digit string, letters, bool |
| Pagination.ShouldContinue | src/extractors/utils_pagination.py:56-68 | another page is wanted iff the count is below the limit and more pages are signalled |
| PyRuntime.FirstTruthyWins | src/extractors/tiktok_parser.py:137-158 | an `or` chain yields the first truthy operand, or the last operand when none is truthy |
| PyRuntime.FirstTruthyIsTruthy | src/extractors/tiktok_parser.py:147 | an `or` chain is truthy iff one of its operands is |
| PyRuntime.DecimalRoundTrip | src/extractors/utils_pagination.py:43-44 | `int(str(n)) == n` |
| PyRuntime.DecimalNoLeadingZero | src/outputs/dataset_exporter.py:61 | `str(n)` starts with `0` only for zero |
| PyRuntime.LowerIdempotent | src/outputs/dataset_exporter.py:82 | lower-casing twice is lower-casing once |
| PyRuntime.ReplaceUnchanged | src/outputs/dataset_exporter.py:44-50 | replacing a character the text does not hold leaves it unchanged |
| PyRuntime.ReplaceRemoves | src/outputs/dataset_exporter.py:44-50 | after a replacement the target is gone, unless the replacement holds it |
| PyRuntime.ReplaceKeepsAbsent | src/outputs/dataset_exporter.py:44-50 | a replacement never introduces a character that neither the text nor the replacement holds |
| PyRuntime.SplitJoin | src/outputs/dataset_exporter.py:67 | splitting a newline join of newline-free lines gives the lines back |
| PyRuntime.PathJoin | src/outputs/dataset_exporter.py:96 | POSIX `os.path.join` in all three cases: an absolute name is the result; a relative name after an empty or `/`-terminated directory is appended as it is; otherwise it is appended after one `/` |
| TikTokParser.UserRecord | src/extractors/tiktok_parser.py:166-177 | a record has exactly the ten user keys, in order |
| TikTokParser.UserRecordField | src/extractors/tiktok_parser.py:166-177 | each key of a record reads back the value it was built with |
| TikTokParser.UserInfo | src/extractors/tiktok_parser.py:137-139 | no contract of its own: `user_info or user or {}`, replaced by `{}` when not a dict; its value is stated by `UserInfoPriority` and `NonDictUserInfoDropsEntry` |
| TikTokParser.Stats | src/extractors/tiktok_parser.py:141-143 | no contract of its own: `stats or {}`, replaced by `{}` when not a dict; what it feeds is stated by `FollowerCountPriority` |
| TikTokParser.HasIdentity | src/extractors/tiktok_parser.py:145-147 | no contract of its own: some identity key is truthy; `UserFieldsIdentity` proves it is exactly the negation of the drop test at line 163 |
| TikTokParser.Signature | src/extractors/tiktok_parser.py:149 | the signature when it is truthy, otherwise `""` (never None) |
| TikTokParser.Avatar | src/extractors/tiktok_parser.py:150 | `avatar_thumb` when truthy, else `avatarThumb` when truthy, else `{}` |
| TikTokParser.UniqueId | src/extractors/tiktok_parser.py:147 | `unique_id` when truthy, otherwise `short_id`; so truthy iff one of the two is |
| TikTokParser.UserFields | src/extractors/tiktok_parser.py:145-160 | one value per user key; each value's resolution is stated by `Signature`, `Avatar`, `UniqueId`, `FollowerCountPriority` and `VerifyPriority` |
| TikTokParser.UserFieldsIdentity | src/extractors/tiktok_parser.py:145-164 | the drop test on `uid`, `unique_id` and `sec_uid` is exactly "no identity" |
| TikTokParser.ParseEntry | src/extractors/tiktok_parser.py:133-179 | an entry yields a record iff it is a dict whose user info has an identity; the record holds the ten keys and the resolved values |
| TikTokParser.RecordDefaults | src/extractors/tiktok_parser.py:149-150 | an emitted record's `signature` and `avatar_thumb` are the resolved values (`Signature`, `Avatar`): the signature or `""`, the first truthy avatar or `{}` |
| TikTokParser.ParseEntries | src/extractors/tiktok_parser.py:133-181 | no more records than entries, each with exactly the user keys |
| TikTokParser.ParseEntriesAppend | src/extractors/tiktok_parser.py:133-181 | parsing keeps entry order: it distributes over concatenation |
| TikTokParser.ParseEntriesSnoc | src/extractors/tiktok_parser.py:133-179 | one more entry appends its record, or nothing when the entry is dropped |
| TikTokParser.ParseUserList | src/extractors/tiktok_parser.py:131-181 | the `for entry in user_list` loop builds exactly `ParseEntries` of the list |
| TikTokParser.ParseUsersFromResponse | src/extractors/tiktok_parser.py:97-181 | the method as the source runs it returns exactly `ParseUsers` of the payload |
| TikTokParser.ParseEntriesSingle | src/extractors/tiktok_parser.py:133-179 | a single entry is emitted iff it is a dict with an identity |
| TikTokParser.UserList | src/extractors/tiktok_parser.py:121-129 | no contract of its own: the `data.user_list` list when there is one; `ParseUsers` states what follows from it |
| TikTokParser.ParseUsers | src/extractors/tiktok_parser.py:97-181 | raises iff the payload is not a dict; no `data.user_list` list gives no records; otherwise the parsed entries |
| TikTokParser.RenormalizeYieldsNothing | src/extractors/tiktok_parser.py:121-131 | an emitted record, fed back as a payload, parses to no records |
| TikTokParser.NonDictUserInfoDropsEntry | src/extractors/tiktok_parser.py:137-139 | an entry whose winning user info is not a dict is dropped |
| TikTokParser.FollowerCountPriority | src/extractors/tiktok_parser.py:151-155 | `follower_count` is the first truthy of its three candidates, else the last |
| TikTokParser.UserInfoPriority | src/extractors/tiktok_parser.py:137-139 | the user info is `user_info` if truthy, else `user` if truthy, else empty |
| TikTokParser.VerifyPriority | src/extractors/tiktok_parser.py:156-158 | `custom_verify` wins when truthy, else `enterprise_verify_reason` |
| TikTokParser.WireCursor | src/extractors/tiktok_parser.py:66 | a truthy cursor is sent as it is; None or a falsy one is sent as 0 |
| TikTokParser.PageSize | src/extractors/tiktok_parser.py:192 | the page size is `min(max_items, 30)` |
| TikTokParser.Take | src/extractors/tiktok_parser.py:209-212 | a prefix of the page, whose length is the page's length capped at the room left (never more than the room) |
| TikTokParser.PageStep | src/extractors/tiktok_parser.py:196-232 | a stop keeps the collected records plus the page cut at the limit; an error only for a payload that is neither None nor a dict; going on needs a non-empty page below the limit, the flag and a cursor |
| TikTokParser.StopConditions | src/extractors/tiktok_parser.py:196-232 | each of the loop's breaks, given its condition: failed fetch, raise, empty page, limit, no flag, no cursor |
| TikTokParser.ContinueConditions | src/extractors/tiktok_parser.py:203-232 | the converse: a non-empty page that stays below the limit, signals more pages and names a cursor always goes on, with the whole page appended and that cursor; and going on needs all four |
| TikTokParser.Paginate | src/extractors/tiktok_parser.py:194-234 | no contract of its own: the loop from a state where a fetch is due; stated by `PaginateSpec`, `PaginateChained`, `PaginateLast`, `PaginateContinue` and `PaginateStop` |
| TikTokParser.SearchRun | src/extractors/tiktok_parser.py:183-241 | no contract of its own: `search_users` as a function of the server; stated by `SearchRunSpec`, `CursorChain`, `LastPageStops` and `TwoPageSearch` |
| TikTokParser.Pages | src/extractors/tiktok_parser.py:203-212 | no contract of its own: the records of the fetched pages in order; `PagesCons` unfolds it and `SearchRunSpec` states the result through it |
| TikTokParser.PagesCons | src/extractors/tiktok_parser.py:203-212 | the records of a run's pages are the first page's records followed by the rest's |
| TikTokParser.InterleaveShape | src/extractors/tiktok_parser.py:194-234 | the trace has 2n-1 events: fetches at even positions in request order, a pause between each two, never first or last |
| TikTokParser.PaginateSpec | src/extractors/tiktok_parser.py:194-234 | a run from any loop state: at least one fetch, at most one per missing record, constant page size, the first with the given cursor; the records are the pages' records in order, cut at the limit |
| TikTokParser.SearchRunSpec | src/extractors/tiktok_parser.py:183-241 | no fetch when `max_items <= 0`; otherwise between 1 and `max_items` fetches, the first with cursor 0, all of size `min(max_items, 30)`; the result is the fetched pages' records in order, cut at `max_items` |
| TikTokParser.PaginateFirst | src/extractors/tiktok_parser.py:195 | a loop state's first fetch carries its cursor and the page size |
| TikTokParser.ContinueLink | src/extractors/tiktok_parser.py:214-234 | a page that lets the loop go on links its request to a request sent on that page's cursor |
| TikTokParser.ChainedAt | src/extractors/tiktok_parser.py:194-234 | a chain of requests holds its link at every position |
| TikTokParser.PaginateChained | src/extractors/tiktok_parser.py:194-234 | the requests of any run form a chain of such links |
| TikTokParser.CursorChain | src/extractors/tiktok_parser.py:214-234 | every fetch after the first follows a non-empty page that signalled more pages and gave a cursor, and it carries that cursor |
| TikTokParser.LastAfterCons | src/extractors/tiktok_parser.py:194-234 | a page in front of a run keeps the run's last request and what was collected before it |
| TikTokParser.PaginateCons | src/extractors/tiktok_parser.py:214-234 | a state whose page goes on sends its request, then exactly the next state's requests |
| TikTokParser.LastOfStop | src/extractors/tiktok_parser.py:196-232 | a state whose page stops sends one request, which stops the loop with what the state collected |
| TikTokParser.LastOfContinue | src/extractors/tiktok_parser.py:214-234 | a state whose page goes on ends with the next state's last request, after the same records |
| TikTokParser.PaginateLast | src/extractors/tiktok_parser.py:194-234 | a run from any loop state ends with a request whose page stops the loop, after everything collected before it, which is still below the limit |
| TikTokParser.LastPageStops | src/extractors/tiktok_parser.py:194-234 | the converse of `CursorChain`: the search's last page stops the loop, so it is not a non-empty page below the limit with the flag and a cursor |
| TikTokParser.FirstPageContinues | src/extractors/tiktok_parser.py:203-232 | a first page below the limit with the flag and a cursor goes on with its records and that cursor |
| TikTokParser.LastPageHasNoMore | src/extractors/tiktok_parser.py:203-232 | a page that parses and signals no more pages stops with the collected records plus the page, cut at the limit |
| TikTokParser.TwoStepRun | src/extractors/tiktok_parser.py:194-234 | a first page that goes on and a second that stops make a run of two requests, the second on the first's cursor |
| TikTokParser.TwoPageSearch | src/extractors/tiktok_parser.py:183-241 | two pages, the first signalling more pages with a cursor: two fetches with one pause between, the second on that cursor, and both pages' records cut at the limit |
| TikTokParser.InterleaveTwo | src/extractors/tiktok_parser.py:194-234 | two requests make the trace fetch, pause, fetch |
| TikTokParser.InterleaveSnoc | src/extractors/tiktok_parser.py:195-234 | one more request extends the trace by a pause and a fetch (only the fetch for the first) |
| TikTokParser.PaginateContinue | src/extractors/tiktok_parser.py:214-234 | a state whose page lets the loop go on: its run is its request followed by the run of the next state, with the same outcome |
| TikTokParser.PaginateStop | src/extractors/tiktok_parser.py:196-232 | a state whose page stops the loop: its run is that one request, with the page's outcome |
| TikTokParser.AppendWithinLimit | src/extractors/tiktok_parser.py:209-212 | the inner loop appends the page's records in order, up to the limit |
| TikTokParser.ProcessPage | src/extractors/tiktok_parser.py:196-232 | the loop body after the fetch decides exactly as `PageStep` |
| TikTokParser.SearchUsers | src/extractors/tiktok_parser.py:183-241 | the loop returns `SearchRun`'s outcome, and its fetches and pauses are exactly `SearchRun`'s requests, interleaved |
| TikTokParser.FirstFetchFails | src/extractors/tiktok_parser.py:194-200 | a failed first fetch returns no records after one fetch and no pause |
| DatasetExporter.Escape | src/outputs/dataset_exporter.py:43-50 | no contract of its own: the five chained replacements; stated by `EscapeNoMarkup`, `EscapePlain`, `EscapeNoBreaks`, `EscapeCharwise` and `UnescapeEscape` |
| DatasetExporter.EscapeNoMarkup | src/outputs/dataset_exporter.py:43-50 | escaped text holds no `<`, `>`, `"` or `'` |
| DatasetExporter.EscapePlain | src/outputs/dataset_exporter.py:43-50 | text without the five special characters is unchanged |
| DatasetExporter.EscapeNoBreaks | src/outputs/dataset_exporter.py:43-50 | escaping never introduces a line break |
| DatasetExporter.EscapeAppend | src/outputs/dataset_exporter.py:43-50 | escaping works piecewise over a concatenation |
| DatasetExporter.EscapeSingle | src/outputs/dataset_exporter.py:43-50 | one character escapes to its own entity: `&` is replaced first, so later replacements never re-escape it |
| DatasetExporter.EscapeCharwise | src/outputs/dataset_exporter.py:43-50 | the chained replacements equal escaping character by character |
| DatasetExporter.UnescapeChar | src/outputs/dataset_exporter.py:43-50 | decoding one escaped character in front of more text gives the character back |
| DatasetExporter.UnescapeEscape | src/outputs/dataset_exporter.py:43-50 | escaping loses nothing: decoding the five entities restores the text |
| DatasetExporter.IntText | src/outputs/dataset_exporter.py:61 | `str` of an int: digits that read back as the number, with no leading zero, and exactly `0` for zero; for a negative number, `-` followed by such digits of its magnitude |
| DatasetExporter.ValueText | src/outputs/dataset_exporter.py:58-61 | no contract of its own: `json.dumps` for a dict or list, `str` otherwise; `IntText` states the int case |
| DatasetExporter.FieldElement | src/outputs/dataset_exporter.py:58-62 | no contract of its own: one `    <key>escaped</key>` line; `FieldElementNoBreaks` and `FieldLinesIndented` state its properties |
| DatasetExporter.FieldLines | src/outputs/dataset_exporter.py:55-62 | no contract of its own: one element per item whose value is not None; stated by `FieldLinesSnoc`, `FieldLinesIndented`, `FieldLinesUntagged` and `FieldLinesNoBreaks` |
| DatasetExporter.RecordLines | src/outputs/dataset_exporter.py:54-63 | no contract of its own: a record's `<user>` block; `RecordLinesTags` states its tags |
| DatasetExporter.BodyLines | src/outputs/dataset_exporter.py:53-63 | no contract of its own: the records' blocks in order; stated by `BodyLinesSnoc`, `BodyLinesTags` and `BodyLinesNoBreaks` |
| DatasetExporter.XmlLines | src/outputs/dataset_exporter.py:52-64 | no contract of its own: declaration, root, blocks, closing root; stated by `XmlSkeletonCount` and `XmlUserCount` |
| DatasetExporter.XmlDocument | src/outputs/dataset_exporter.py:66-67 | no contract of its own: the lines joined with newlines; `XmlDocumentLines` proves the join loses nothing and `ExportXml` that the loops build it |
| DatasetExporter.FieldLinesSnoc | src/outputs/dataset_exporter.py:55-62 | one more item appends its element, or nothing when its value is None |
| DatasetExporter.BodyLinesSnoc | src/outputs/dataset_exporter.py:53-63 | one more record appends its `<user>` block |
| DatasetExporter.ExportXml | src/outputs/dataset_exporter.py:41-67 | the nested loops and the join build exactly `XmlDocument` |
| DatasetExporter.CountAppend | src/outputs/dataset_exporter.py:52-64 | occurrences add up over a concatenation of line lists |
| DatasetExporter.FieldLinesIndented | src/outputs/dataset_exporter.py:62 | every field line starts with four spaces and `<` |
| DatasetExporter.FieldLinesUntagged | src/outputs/dataset_exporter.py:54-63 | no field line equals a `<user>`, `</user>` or `<users>` line |
| DatasetExporter.RecordLinesTags | src/outputs/dataset_exporter.py:54-63 | a record's block opens one `<user>` and closes one |
| DatasetExporter.BodyLinesTags | src/outputs/dataset_exporter.py:53-63 | the records' blocks open and close one `<user>` per record, and never the root |
| DatasetExporter.XmlSkeletonCount | src/outputs/dataset_exporter.py:52-64 | the document has one root and one `<user>`/`</user>` pair per record |
| DatasetExporter.XmlUserCount | src/outputs/dataset_exporter.py:52-64 | as `XmlSkeletonCount`, for each of the three tags |
| DatasetExporter.FieldElementNoBreaks | src/outputs/dataset_exporter.py:62 | a key and value text without line breaks give a one-line element |
| DatasetExporter.FieldLinesNoBreaks | src/outputs/dataset_exporter.py:55-62 | a record without line breaks gives field lines without line breaks |
| DatasetExporter.BodyLinesNoBreaks | src/outputs/dataset_exporter.py:53-63 | the records' blocks hold no line breaks when no key or value text does |
| DatasetExporter.XmlDocumentLines | src/outputs/dataset_exporter.py:66-67 | when no key or value text holds a line break, splitting the file on newlines gives back exactly the lines built |
| DatasetExporter.Extension | src/outputs/dataset_exporter.py:88-95 | every format's extension is a dot followed by its name |
| DatasetExporter.ExtensionInjective | src/outputs/dataset_exporter.py:88-95 | distinct formats have distinct extensions |
| DatasetExporter.ParseFormat | src/outputs/dataset_exporter.py:82-84 | an accepted format's name is the lower-cased input |
| DatasetExporter.ParseFormatComplete | src/outputs/dataset_exporter.py:82-84 | a format is accepted iff its lower-cased form names a supported format |
| DatasetExporter.ParseFormatName | src/outputs/dataset_exporter.py:82-84 | every supported name is accepted as its own format |
| DatasetExporter.ParseFormatCaseInsensitive | src/outputs/dataset_exporter.py:82 | letter case does not matter |
| DatasetExporter.IsRecordList | src/outputs/dataset_exporter.py:79-80 | no contract of its own: a list all of whose items are dicts; `Export` states that anything else fails with the records message |
| DatasetExporter.RecordDicts | src/outputs/dataset_exporter.py:79 | the validated records are the list's dicts, one for one |
| DatasetExporter.AbsPath | src/outputs/dataset_exporter.py:18-19 | an absolute path is kept as it is |
| DatasetExporter.Export | src/outputs/dataset_exporter.py:69-111 | the record check comes first, then the format check, each with its message; valid records with a supported format always succeed; a success has the parsed format and exactly the list's dicts |
| DatasetExporter.ExportPath | src/outputs/dataset_exporter.py:86-111 | a successful export's path is exactly the absolute output directory joined with base name, dot, lower-cased format (one `/` between them unless the directory ends in one), and it carries the list's dicts |
| DatasetExporter.ExportTargetPath | src/outputs/dataset_exporter.py:86-96 | a successful export's path is the POSIX join of the absolute output directory and base name, dot, lower-cased format, and it carries the list's dicts |
| DatasetExporter.AbsoluteDirectory | src/outputs/dataset_exporter.py:18-19 | the output directory made absolute is non-empty, starts with `/`, and is the directory itself when that is absolute, else the directory joined onto the working directory |
| DatasetExporter.JoinFileName | src/outputs/dataset_exporter.py:96 | joining an absolute directory with a relative `base.ext` gives the directory, one `/` unless it ends in one, then the name; the result starts with the directory and ends with the name |

## Left out

- HTTP transport, headers, query parameters other than cursor and count, timeouts and the session: the fetch is the `Server` oracle. The search keyword is only passed through to it, so the model has no keyword.
- The fetch's failure modes (exception, non-OK status, JSON decode error) all return None, which the model represents as `JNull`. They are not told apart.
- The sleep duration and the clock: a pause is the `Sleep` event in the ghost trace.
- Logging, `main.py`, the CLI and the configuration: they are not part of this model.
- The JSON, CSV, XLSX and HTML writers (`json.dump` and pandas) and all file I/O: `Export` returns the target (format, path, records) instead of writing it. `ExportXml` returns the document text.
- `os.makedirs` in `_ensure_output_dir` is not modelled.
- AbsPath: `os.path.abspath` is modelled without `normpath`, so `.`, `..` and doubled slashes are not collapsed.
- `json.dumps` for dicts and lists and `str` of a float are parameters (`Formatter`): they are Python library behaviour.
- Floats are opaque: only whether they equal zero is kept.
- `str.isdigit` and `str.lower` are modelled on ASCII only; the Unicode digits and letters they also accept are not.
- Dicts: `JMap` is a list of key/value pairs and `Lookup` returns the first match. Python dicts hold each key once; the records the model builds have distinct keys (`UserRecord`), but a `JMap` from the oracle may repeat one. For a JSON object with a repeated key, `json.loads` keeps the last value, while `Lookup` returns the first, so such payloads are not modelled faithfully.
- Python's `int` is unbounded, like Dafny's, so there is no wrap-around to model.
- CursorValue, IntText: Python 3.10.7 and later limit `int()` of a decimal string and `str()` of an int to 4300 digits by default and raise `ValueError` beyond that. The model has no such limit: a longer all-digit cursor is read as its value (so `get_next_cursor` and `search_users` would raise where the model goes on), and `str()` of a longer int in `_export_xml` gives its digits.
- ProcessPage, AppendWithinLimit: the loop body of `search_users` and its inner loop are separate methods, called from `SearchUsers` in the same order as the source runs them.
- SearchUsers: `has_more` is not re-read after each page. The loop only reaches its test again after a page that signalled more pages.
