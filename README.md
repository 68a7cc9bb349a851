# AutoTruckBuilder utilities, modelled in Dafny

This project models the decision logic that sits between the browser login
and the HTTP calls of the AutoTruckBuilder batch client. The client reads
spreadsheets of truck specifications from a bucket folder and turns each row
into a spec record. It logs in to the configuration system once. Then, for
each file, it opens a client with the stored credentials, fetches a
single-spec cache, builds the request, posts a search, polls the job and
downloads the result. A call refused with status 401, 403 or 419 triggers
one more login and a single retry of that call. It does this for every file
concurrently and shows one progress bar per file.

Modules follow the source files:

- `excel.dfy` (`Excel`) covers header normalisation and validation, the
  per-row extraction with its fall-backs, order-preserving de-duplication,
  the truthy-flag parser and the bucket file filter.
- `util.dfy` (`Util`) covers the `key = value` configuration parser, the
  precedence environment > file > default, collision-free output names and
  the three-tier job-id extraction.
  - The job-id pattern is `(?<!\d)(\d{13,20})(?!\d)`. The model states it as
    "the leftmost run of 13 to 20 ASCII digits that no other ASCII digit
    touches".
- `console_board.dfy` (`Board`) is the `ConsoleBoard` class. Its
  `bars: map<int, Bar>` field holds, per slot, the percentage, the
  description, and whether the bar is closed and red.
- `auth_edge.dfy` (`AuthEdge`, `EdgeOptions`) covers:
  - the `_verify` policy mapping;
  - the cookie-domain filter;
  - the classification of the front-page probe;
  - the login-at-most-twice rule;
  - the `AsyncAuth` class, whose cookies and headers are replaced together;
  - the browser command line built by `_build_opts`.
- `pipeline.dfy` (`Pipeline`) covers one file's journey and the fan-in:
  - the one-shot retry on status 401/403/419;
  - the fixed stage order;
  - the events each file shows on its own bar;
  - the counting of outcomes into failures and durations.
- `text.dfy` (`Text`) and `wrappers.dfy` (`Wrappers`) hold what the others
  share: Python's `strip`, `lower`, `isspace`, `str(int)`, string order, and
  `Option`/`Result`. A raised exception becomes a `Result` `Failure`;
  in the pipeline it carries a `FileError`.

Everything outside the modelled code is a parameter. This covers the
spreadsheet contents, the directory listing, the environment, the browser's
cookies, the outcome of each network operation, each credential refresh and
the clock. In the pipeline, these are gathered per file in a `FileWorld`.

## Model

| member | source | states |
|---|---|---|
| Excel.Norm | AutoTruckBuilder_util/core/excel.py:18-20 | the result holds no whitespace, no underscore and no upper-case ASCII letter (what survives, and where, is `NormAppend` with `NormChar`) |
| Excel.NormIdempotent | AutoTruckBuilder_util/core/excel.py:18-20 | normalising a normalised header changes nothing |
| Excel.NormAppend | AutoTruckBuilder_util/core/excel.py:18-20 | normalising works piece by piece: the normal form of `a + b` is that of `a` followed by that of `b` |
| Excel.NormChar | AutoTruckBuilder_util/core/excel.py:18-20 | a whitespace or `_` character vanishes; any other character stays, lower-cased; with `NormAppend` this fixes `_norm` on every string |
| Excel.ToBoolCases | AutoTruckBuilder_util/core/excel.py:15-24 | a blank cell reads false; the stringified default `True` reads true |
| Excel.ToBoolNormalised | AutoTruckBuilder_util/core/excel.py:22-24 | surrounding whitespace and letter case do not change a cell's truth value |
| Excel.CellNormalFormFixed | AutoTruckBuilder_util/core/excel.py:24 | a stripped, lower-cased cell is its own stripped, lower-cased form |
| Excel.Dedupe | AutoTruckBuilder_util/core/excel.py:26-28 | no duplicates; a value is kept iff it occurs in the input and is non-empty; kept values are in the order of their first occurrence |
| Excel.FirstIndexInPrefix | AutoTruckBuilder_util/core/excel.py:28 | appending a value does not move the first occurrence of a value already present |
| Excel.FirstIndexInPrefixAll | AutoTruckBuilder_util/core/excel.py:28 | the same for every value already present at once |
| Excel.DedupeSkip | AutoTruckBuilder_util/core/excel.py:28 | a blank or already-seen value leaves the result unchanged and its three properties intact |
| Excel.DedupeKeep | AutoTruckBuilder_util/core/excel.py:28 | a new non-blank value is appended after every value kept so far, keeping the result duplicate-free and in first-occurrence order |
| Excel.NormalizeHeaders | AutoTruckBuilder_util/core/excel.py:36-41 | one stripped original and one normalised header per column, position by position |
| Excel.ValidateHeaders | AutoTruckBuilder_util/core/excel.py:43-62 | accepts iff `gg` plus the first five are the required headers, or no `gg` and the first four are the base headers; the error carries the expected headers and as many stripped originals |
| Excel.ExtraColumnsAllowed | AutoTruckBuilder_util/core/excel.py:50-55 | trailing columns after a valid header row keep it valid |
| Excel.IndexOf | AutoTruckBuilder_util/core/excel.py:73 | finds a column with the requested name, or reports that none has it |
| Excel.ConfigName | AutoTruckBuilder_util/core/excel.py:79 | `configname`, else `from`, else the specification; it is never empty when the specification is not |
| Excel.RowsFromDf | AutoTruckBuilder_util/core/excel.py:64-90 | the loop appends exactly the records of `SpecRows`, in row order |
| Excel.RowFromCells | AutoTruckBuilder_util/core/excel.py:72-89 | the loop body yields nothing for a blank specification, otherwise the record with all its fall-backs |
| Excel.SpecRowsKeepOrder | AutoTruckBuilder_util/core/excel.py:72-75 | no more records than rows; records come from increasing row positions; every row with a non-blank specification yields one |
| Excel.SpecRowFields | AutoTruckBuilder_util/core/excel.py:73-80 | each record has a non-empty specification and configuration name; its change variants are distinct, and are exactly the non-blank cells of the trailing columns |
| Excel.GgDefaults | AutoTruckBuilder_util/core/excel.py:76 | without a `gg` column the flag is set; a blank `gg` cell clears it |
| Excel.CvColumnsAfterHeaders | AutoTruckBuilder_util/core/excel.py:67-69 | after a valid header row the change-variant columns are those from index 5 (with `gg`) or index 4 (without) |
| Excel.ReadRows | AutoTruckBuilder_util/core/excel.py:95-102 | fails iff the normalised headers are invalid; otherwise yields the row records of the normalised sheet |
| Excel.ReadRowsFromExcel | AutoTruckBuilder_util/core/excel.py:95-102 | the steps in order give the result of `ReadRows` |
| Excel.LowerSlice | AutoTruckBuilder_util/core/excel.py:113-116 | lower-casing commutes with taking a suffix |
| Excel.IsRealXlsxByName | AutoTruckBuilder_util/core/excel.py:112-120 | a file passes iff its lower-cased name ends in `.xlsx` after a non-empty stem and starts with neither `~$` nor `vms_filter` |
| Excel.XlsxSuffixEnds | AutoTruckBuilder_util/core/excel.py:115 | a suffix that lower-cases to `.xlsx` is the last five characters of a name longer than five |
| Excel.EndsXlsxSuffix | AutoTruckBuilder_util/core/excel.py:115 | conversely, a name longer than five whose lower-cased form ends in `.xlsx` has the suffix `.xlsx` once lower-cased |
| Excel.RealXlsxPathsFromEntries | AutoTruckBuilder_util/core/excel.py:112-122 | every picked path is a listed entry that passes the filter, joined to the folder |
| Excel.RealXlsxPathsComplete | AutoTruckBuilder_util/core/excel.py:112-122 | every listed entry that passes the filter has its path among the picked ones |
| Excel.PickExcelFilesIff | AutoTruckBuilder_util/core/excel.py:105-124 | a path is picked iff it is the folder joined with the name of a listed entry that passes the filter |
| Excel.Insert | AutoTruckBuilder_util/core/excel.py:122 | inserting into a sorted list keeps it sorted and adds exactly the one element |
| Excel.SortStrings | AutoTruckBuilder_util/core/excel.py:122 | the result is sorted and a permutation of the input |
| Excel.PickExcelFiles | AutoTruckBuilder_util/core/excel.py:105-124 | empty when the folder is missing; otherwise a sorted permutation of the filtered paths |
| Excel.CountRealIsFilterLength | AutoTruckBuilder_util/core/excel.py:131-135 | counting the passing entries gives as many as the picker's filter keeps |
| Excel.CountMatchesPick | AutoTruckBuilder_util/core/excel.py:126-135 | the count equals the number of files the picker returns |
| Util.SplitLines | AutoTruckBuilder_util/core/util.py:21 | at least one line, and no line contains a line-break character |
| Util.SplitLinesContents | AutoTruckBuilder_util/core/util.py:21 | the lines, joined, are the text with its line-break characters removed, and there is one line more than there are breaks |
| Util.SeparatorIndex | AutoTruckBuilder_util/core/util.py:25 | the first `=`, `:` or `#`, or the end of the line |
| Util.MatchKvShape | AutoTruckBuilder_util/core/util.py:25-28 | a matched key is non-empty, stripped and free of `=`, `:`, `#`; a line without `=` or `:` does not match |
| Util.Unquote | AutoTruckBuilder_util/core/util.py:29-30 | a value in matching double or single quotes loses exactly the outer pair; any other value is unchanged |
| Util.ParseLineShape | AutoTruckBuilder_util/core/util.py:22-28 | blank lines, `#` lines and lines without `=`/`:` contribute nothing; keys are non-empty, stripped and separator-free |
| Util.ParseLineValue | AutoTruckBuilder_util/core/util.py:22-30 | a line defines a key iff, once stripped, its first `=`, `:` or `#` is an `=` or `:` after at least one character; the key is the stripped text before it and the value the stripped text after it, with one pair of matching outer quotes removed; an unquoted value is stripped |
| Util.ParseKv | AutoTruckBuilder_util/core/util.py:19-32 | the loop that fills `out` builds the dictionary `KvOf` of the text's lines |
| Util.FoldKeyFromSomeEntry | AutoTruckBuilder_util/core/util.py:31 | a stored key comes from some entry |
| Util.FoldLastEntryWins | AutoTruckBuilder_util/core/util.py:31 | the last entry for a key gives its value |
| Util.KvKeyFromSomeLine | AutoTruckBuilder_util/core/util.py:19-32 | every key of the dictionary is defined by some line |
| Util.KvLastDefinitionWins | AutoTruckBuilder_util/core/util.py:31 | a later line defining the same key overwrites an earlier one |
| Util.KvKeysWellFormed | AutoTruckBuilder_util/core/util.py:25-28 | every key is non-empty, stripped and free of `=`, `:`, `#` |
| Util.ConfigGet | AutoTruckBuilder_util/core/util.py:52-54 | a set variable wins (even if empty), then the file, then the default; the result is stripped |
| Util.ConfigGetFromFile | AutoTruckBuilder_util/core/util.py:52-54 | with the variable unset, the value is the last definition in the file, stripped |
| Util.LastDot | AutoTruckBuilder_util/core/util.py:122-123 | the position of the last `.`, or -1 |
| Util.StemAndSuffix | AutoTruckBuilder_util/core/util.py:122-123 | stem followed by suffix is the name |
| Util.CandidateDiffers | AutoTruckBuilder_util/core/util.py:127 | a numbered candidate differs from the original path |
| Util.MiddleUnique | AutoTruckBuilder_util/core/util.py:127 | equal strings with equal ends have equal middles |
| Util.CandidateInjective | AutoTruckBuilder_util/core/util.py:127 | different counters give different candidates |
| Util.CandidateKeepsSuffix | AutoTruckBuilder_util/core/util.py:123-127 | a numbered candidate keeps the name's extension |
| Util.CandidateUntried | AutoTruckBuilder_util/core/util.py:123-128 | the `i`-th candidate differs from the path itself and from every earlier candidate, so the search never revisits a name |
| Util.UniqueFilename | AutoTruckBuilder_util/core/util.py:119-129 | the result does not exist and is in the same folder; it is the path itself when that is free, otherwise `stem(i)ext` for the least `i >= 1` whose candidate is free; the extension is kept |
| Util.RunEnd | AutoTruckBuilder_util/core/util.py:9 | the end of the maximal digit run from a position |
| Util.JobIdAtIsRun | AutoTruckBuilder_util/core/util.py:9 | a match covers a whole digit run |
| Util.SearchFrom | AutoTruckBuilder_util/core/util.py:9 | the leftmost match from a position outside a digit run, or none at all |
| Util.SearchJobId | AutoTruckBuilder_util/core/util.py:9 | `JOBID_RE.search`: the leftmost run of 13 to 20 digits that no digit touches, or none |
| Util.JsonJobId | AutoTruckBuilder_util/core/util.py:141-143 | the value of the first key, in the given order, holding a string or an int; none when no key does |
| Util.HeaderCaseInsensitive | AutoTruckBuilder_util/core/util.py:132-137 | header names that differ only in case find the same header |
| Util.ExtractJobId | AutoTruckBuilder_util/core/util.py:131-149 | Location wins, then the JSON keys when the content type mentions json, then the body's match; each tier's value is returned as found; it fails iff all three tiers find nothing |
| Util.ExtractedIdIsDigitRun | AutoTruckBuilder_util/core/util.py:131-148 | an id from the header or the body is 13 to 20 digits |
| Util.LocationHasPriority | AutoTruckBuilder_util/core/util.py:132-136 | once the Location header yields an id, the body does not matter |
| Util.JsonContentTypeAnyCase | AutoTruckBuilder_util/core/util.py:137-143 | a `Content-Type: Application/JSON` reply with `jobId` and no Location yields that id |
| Board.Clamp | AutoTruckBuilder_util/core/console_board.py:31 | `max(0, min(100, percent))`: in 0..100, the percentage itself when already in range |
| Board.ClampMonotone | AutoTruckBuilder_util/core/console_board.py:31 | clamping keeps the order of percentages |
| Board.InitialBarsShape | AutoTruckBuilder_util/core/console_board.py:14-25 | slots are exactly `0..n-1`, all open at 0%, with distinct labels |
| Board.ProgressedEffect | AutoTruckBuilder_util/core/console_board.py:27-34 | only slot `i` changes, to the clamped percentage and the text; a missing slot changes nothing; percentages stay in range |
| Board.CompletedEffect | AutoTruckBuilder_util/core/console_board.py:36-43 | slot `i` becomes full, closed and shows the text; nothing else changes |
| Board.FailedEffect | AutoTruckBuilder_util/core/console_board.py:45-55 | slot `i` keeps its percentage, turns red, closes and shows the text; nothing else changes |
| Board.AllClosedEffect | AutoTruckBuilder_util/core/console_board.py:57-63 | every bar is closed with nothing else changed; closing again changes nothing |
| Board.ProgressCommutes | AutoTruckBuilder_util/core/console_board.py:27-34 | progress updates on different slots commute |
| Board.ProgressAfterComplete | AutoTruckBuilder_util/core/console_board.py:27-43 | a completed bar still takes a later progress update, and stays closed |
| Board.ConsoleBoard.constructor | AutoTruckBuilder_util/core/console_board.py:8-25 | the loop builds the initial bars; the board is valid |
| Board.ConsoleBoard.SetProgress | AutoTruckBuilder_util/core/console_board.py:27-34 | the bars become `Progressed` of the old bars; the board stays valid |
| Board.ConsoleBoard.Complete | AutoTruckBuilder_util/core/console_board.py:36-43 | the bars become `Completed` of the old bars; the board stays valid |
| Board.ConsoleBoard.Fail | AutoTruckBuilder_util/core/console_board.py:45-55 | the bars become `Failed` of the old bars; the board stays valid |
| Board.ConsoleBoard.CloseAll | AutoTruckBuilder_util/core/console_board.py:57-63 | closing the bars one by one gives `AllClosed` of the old bars |
| AuthEdge.Verify | AutoTruckBuilder_util/core/auth_edge.py:32-36 | `False` stays `False`, a non-empty path stays itself, anything else gives `None`; never `True` |
| AuthEdge.SessionVerifyCases | AutoTruckBuilder_util/core/auth_edge.py:38-42 | the session verifies unless the policy is `False`, with a custom bundle exactly for a non-empty path |
| AuthEdge.KeepCookieByDomain | AutoTruckBuilder_util/core/auth_edge.py:160 | a cookie is kept iff its domain contains `.company.net`, which covers the first test |
| AuthEdge.CopySystemCookies | AutoTruckBuilder_util/core/auth_edge.py:157-161 | the loop builds `JarOf` of the browser's cookies |
| AuthEdge.JarOfContents | AutoTruckBuilder_util/core/auth_edge.py:157-161 | every jar entry comes from a kept browser cookie; every kept cookie has an entry |
| AuthEdge.JarOfLastKeptWins | AutoTruckBuilder_util/core/auth_edge.py:157-161 | a kept cookie that no later kept cookie shadows (same domain and name) has its value in the jar |
| AuthEdge.AuthenticatedIff | AutoTruckBuilder_util/core/auth_edge.py:173-183 | yes on 200 or on a redirect whose lower-cased target mentions none of `login`, `adfs`, `sharepoint`; no on an exception or any other status |
| AuthEdge.LowerOccurs | AutoTruckBuilder_util/core/auth_edge.py:179-180 | an occurrence survives lower-casing |
| AuthEdge.LoginRedirectRejected | AutoTruckBuilder_util/core/auth_edge.py:178-180 | a redirect to a login page is rejected whatever the case of its target |
| AuthEdge.GetSystemSession | AutoTruckBuilder_util/core/auth_edge.py:185-189 | one or two logins, two exactly when the first succeeds but fails the probe; the result is that of the last login |
| AuthEdge.GetSystemSessionFirstWins | AutoTruckBuilder_util/core/auth_edge.py:185-189 | a first session that passes the probe, or a failed first login, is final after one login |
| AuthEdge.ClientOf | AutoTruckBuilder_util/core/auth_edge.py:212-222 | stored cookies and headers, or empty maps when none; the verify policy; redirects followed; no HTTP/2 |
| AuthEdge.RefreshAtomic | AutoTruckBuilder_util/core/auth_edge.py:202-210 | cookies and headers are both the new login's or both the old ones; a client made after a successful refresh carries that login's |
| AuthEdge.AsyncAuth.constructor | AutoTruckBuilder_util/core/auth_edge.py:197-200 | nothing stored |
| AuthEdge.AsyncAuth.Refresh | AutoTruckBuilder_util/core/auth_edge.py:202-210 | the stored pair becomes `AfterRefresh` of the old one; a failed login propagates its error |
| AuthEdge.AsyncAuth.NewClient | AutoTruckBuilder_util/core/auth_edge.py:212-222 | the client is `ClientOf` the stored pair |
| EdgeOptions.BuildOpts | AutoTruckBuilder_util/core/auth_edge.py:70-93 | adding arguments one at a time gives the rendered `OptsArgs`; the experimental option is present exactly when silent |
| EdgeOptions.Append | AutoTruckBuilder_util/core/auth_edge.py:78-91 | one `add_argument`: one more rendered argument |
| EdgeOptions.OptsArgsFlags | AutoTruckBuilder_util/core/auth_edge.py:77-91 | the fixed flags are always present; the window flags iff silent; a directory or profile argument iff it was given, carrying the given value |
| EdgeOptions.FlagsAfterDirs | AutoTruckBuilder_util/core/auth_edge.py:82-91 | the flags follow the directory arguments |
| EdgeOptions.DirsBeforeFlags | AutoTruckBuilder_util/core/auth_edge.py:77-80 | the directory arguments come only from what was given |
| EdgeOptions.SilentExtends | AutoTruckBuilder_util/core/auth_edge.py:88-91 | silent mode only appends the window flags |
| Pipeline.EventsAppend | AutoTruckBuilder_util/pipeline.py:36-77 | calls, operations and refreshes of concatenated events concatenate and add up |
| Pipeline.RetryRule | AutoTruckBuilder_util/pipeline.py:36-47 | a refresh happens iff the first call fails with 401/403/419; otherwise that outcome is returned after one call; a failed refresh propagates; after a successful one the retry has only `client` replaced and its outcome is final |
| Pipeline.RetryEvents | AutoTruckBuilder_util/pipeline.py:43-47 | a retried call makes two calls and one refresh, and marks nothing |
| Pipeline.RefreshFailedEvents | AutoTruckBuilder_util/pipeline.py:43-44 | a failed refresh leaves one call and one refresh |
| Pipeline.RetryKeepsOtherArgs | AutoTruckBuilder_util/pipeline.py:45-47 | every call is of the same operation with the same argument names and all values other than `client` unchanged |
| Pipeline.RetryNeedsClient | AutoTruckBuilder_util/pipeline.py:37 | without `client` nothing is called |
| Pipeline.AttemptOps | AutoTruckBuilder_util/pipeline.py:36-47 | the wrapped operation runs once or twice and marks nothing |
| Pipeline.LastSlash | AutoTruckBuilder_util/pipeline.py:24 | within the path's bounds, or -1 |
| Pipeline.LastSlashSpec | AutoTruckBuilder_util/pipeline.py:24 | a `/` at the returned position and none after it |
| Pipeline.BaseNameSpec | AutoTruckBuilder_util/pipeline.py:24-74 | the base name contains no `/` |
| Pipeline.StageArgs | AutoTruckBuilder_util/pipeline.py:53-77 | every stage is called with the file's original client |
| Pipeline.StageStep | AutoTruckBuilder_util/pipeline.py:49-81 | a stage that does not stop hands on to the next stage |
| Pipeline.StageStepStops | AutoTruckBuilder_util/pipeline.py:53-81 | a stage stops the file iff its wrapped call fails, the request items cannot be built after the cache fetch, or it is the download; a failure stops it with that error, the download with success and the elapsed time |
| Pipeline.NoRowsBeforeNetwork | AutoTruckBuilder_util/pipeline.py:28-32 | a sheet without rows fails with `NoRowsFound`: no call, no refresh, no client, and the bar is marked failed |
| Pipeline.ExtendStages | AutoTruckBuilder_util/pipeline.py:49-77 | one more stage's calls keep the stage order |
| Pipeline.ExtendStepBound | AutoTruckBuilder_util/pipeline.py:49-77 | after one more stage's calls every operation is the previous one or the next stage |
| Pipeline.ExtendNoTriple | AutoTruckBuilder_util/pipeline.py:49-77 | after one more stage's calls no operation is called three times in a row (at most one retry) |
| Pipeline.AppendKeepsStages | AutoTruckBuilder_util/pipeline.py:49-77 | a stage's attempt and its progress events keep the stage order |
| Pipeline.ProgressOnly | AutoTruckBuilder_util/pipeline.py:58-73 | progress events call nothing and mark nothing |
| Pipeline.FailedRunShape | AutoTruckBuilder_util/pipeline.py:53-77 | a run that stops with an error after unmarked events is well formed |
| Pipeline.ReadFailedShape | AutoTruckBuilder_util/pipeline.py:28-33 | a file whose sheet or VMS list cannot be read fails after its reading progress event alone, with no call and its bar unmarked |
| Pipeline.FinishedRunShape | AutoTruckBuilder_util/pipeline.py:79-81 | a run completed after the download is well formed |
| Pipeline.StepShape | AutoTruckBuilder_util/pipeline.py:53-81 | one stage keeps the stage order; where it stops, the run is well formed |
| Pipeline.SucceededStepShape | AutoTruckBuilder_util/pipeline.py:53-81 | a stage whose call succeeded appends only its progress events and hands the next stage a well-ordered history, or, after the download, completes a well-formed run |
| Pipeline.StagesShape | AutoTruckBuilder_util/pipeline.py:49-81 | the stages from any point on end in a well-formed run |
| Pipeline.OpeningShape | AutoTruckBuilder_util/pipeline.py:28-52 | the events before the first call call nothing and mark nothing |
| Pipeline.ProcessFileStages | AutoTruckBuilder_util/pipeline.py:23-81 | operations in order fetch, post, poll, download, each once or twice, and any failure ends the file; success, with the elapsed time, iff the last event marks the bar done, which needs the download; only the no-rows failure marks the bar |
| Pipeline.ReadFailureEndsFile | AutoTruckBuilder_util/pipeline.py:28-33 | a sheet that cannot be read, or a VMS filter that cannot be loaded, ends the file with that error after the reading event alone, before any call |
| Pipeline.FirstFailureEndsFile | AutoTruckBuilder_util/pipeline.py:53-77 | the first stage whose wrapped call fails ends the file with that error; only that stage's operation is called after the earlier ones, once or twice |
| Pipeline.BuildFailureEndsFile | AutoTruckBuilder_util/pipeline.py:53-59 | request items that cannot be built end the file with that error after the cache fetch; the search is never posted |
| Pipeline.HappyStep | AutoTruckBuilder_util/pipeline.py:53-81 | with every call succeeding, a stage makes one call and moves on, or completes the file after the download |
| Pipeline.HappyStages | AutoTruckBuilder_util/pipeline.py:53-81 | with every call succeeding, the stages from any point on call each remaining operation once, in order, and succeed |
| Pipeline.AllSucceedCompletes | AutoTruckBuilder_util/pipeline.py:23-81 | a readable sheet with rows, every call succeeding and the items built: the file calls fetch, post, poll and download once each, in that order, and succeeds with its elapsed time |
| Pipeline.BoardAfter | AutoTruckBuilder_util/pipeline.py:28-80 | a file's updates never add or remove slots |
| Pipeline.BoardAfterFrame | AutoTruckBuilder_util/pipeline.py:28-80 | a file touches only its own bar and keeps percentages in range |
| Pipeline.NoVerdictKeepsFlags | AutoTruckBuilder_util/pipeline.py:28-77 | progress-only events leave a bar's closed and red flags alone |
| Pipeline.FileBarVerdict | AutoTruckBuilder_util/pipeline.py:28-81 | success leaves the bar full and closed; no rows leaves it red and closed; other failures leave its flags as they were |
| Pipeline.FailureCountSnoc | AutoTruckBuilder_util/pipeline.py:102-103 | one more result adds one failure iff it failed |
| Wrappers.SomesPrefixStep | AutoTruckBuilder_util/pipeline.py:105-106 | one more result appends its value iff it has one (also the step of the row loop of `rows_from_df`) |
| Pipeline.Aggregate | AutoTruckBuilder_util/pipeline.py:100-106 | the loop over `zip(files, results)` counts the failures, collects the durations and logs the failures of the shorter length |
| Pipeline.OutcomesPartition | AutoTruckBuilder_util/pipeline.py:100-106 | failures plus durations equal the number of files |
| Pipeline.SuccessesInOrder | AutoTruckBuilder_util/pipeline.py:105-106 | the durations are exactly the successful results, in file order |
| Pipeline.AggregateSplits | AutoTruckBuilder_util/pipeline.py:100-106 | counting a split batch adds up |
| Pipeline.Outcomes | AutoTruckBuilder_util/pipeline.py:94-95 | one outcome per file |
| Pipeline.OutcomeAt | AutoTruckBuilder_util/pipeline.py:94-95 | the `i`-th outcome is that of file `i` in its own surroundings |
| Pipeline.FailureIsolation | AutoTruckBuilder_util/pipeline.py:94-95 | changing what one file meets leaves every other file's outcome unchanged |
| Pipeline.MiddleFileWithoutRows | AutoTruckBuilder_util/pipeline.py:29-106 | a no-rows file between two successes gives one failure and both durations in order |
| Pipeline.ApplyEvents | AutoTruckBuilder_util/pipeline.py:28-80 | applying a file's updates to the board gives `BoardAfter` |
| Pipeline.RunFile | AutoTruckBuilder_util/pipeline.py:23-81 | the file's outcome; the new bars are `BoardAfter` the old ones with the file's events on its slot; other slots unchanged; a success leaves its bar full; no rows leaves it red |
| Pipeline.BoardsAfterFrame | AutoTruckBuilder_util/pipeline.py:94-95 | applying any number of files keeps the board's slots and its percentages in range |
| Pipeline.BoardsAfterLater | AutoTruckBuilder_util/pipeline.py:94-95 | the files after file `k` leave slot `k` as file `k` left it |
| Pipeline.FilesBoardVerdicts | AutoTruckBuilder_util/pipeline.py:94-95 | once every file has run, each slot holds its own file's verdict: full after a success, red after a sheet without rows |
| Pipeline.RunAll | AutoTruckBuilder_util/pipeline.py:94-95 | the outcomes of all files in file order; the new bars are the old ones with every file's events applied, file `i` on slot `i`, one file after another |
| Pipeline.RunPipeline | AutoTruckBuilder_util/pipeline.py:84-108 | a failed initial login propagates; otherwise the failure count and the durations of all outcomes; one bar per file, all closed; successful bars full; no-rows bars red |

## Left out

- The browser is not modelled: Selenium launch and login navigation (`_start_edge_clean`, `_start_edge_with_profile`, `_edge_binary`, `_wait_cookie`, `_wait_domain`). Their results are parameters: the browser's cookies and each login's outcome.
- HTTP is not modelled (`requests`, `httpx`, the operations of `core.async_ops`). Each operation is a given function from its keyword arguments to an outcome.
- Concurrency is not modelled: `asyncio.gather`, the semaphore, `to_thread` and the locks. Lock-guarded updates are single assignments. Files are applied to the board one after another. This is justified by `ConsoleBoard` slots being disjoint (`BoardAfterFrame`, `ProgressCommutes`).
- The credential store is not shared across files in the model. Each file's refresh outcomes and client generation are parameters of its own `FileWorld`.
- Clocks are parameters: `elapsed`, its formatted text, and `totalTime`. `config._fmt` is therefore not modelled. Durations are opaque values, not floats.
- The failure log is modelled as (stem, error) pairs. The logging call itself is left out. `RunPipeline` discards the log, as the source does.
- Pandas is not modelled. A sheet is its header row plus rows of string cells, with missing cells read as "". Duplicate column names are not modelled.
- SplitLines: breaks at every line-break character, unlike `str.splitlines()` in three ways. `"\r\n"` gives an extra empty line, a trailing break gives an extra empty line, and `""` gives `[""]` rather than `[]`. Each difference adds only empty lines, which `_parse_kv` skips (`ParseLineShape`), so `ParseKv`'s dictionary is unaffected.
- `lower()` is modelled for ASCII letters only. Unicode case mapping is not modelled.
- SearchJobId: `\d` is modelled as the ASCII digits `0`-`9`. Python's `\d` in a `str` pattern matches every Unicode decimal digit, in the look-arounds too, so a non-ASCII digit next to a run (or inside one) is not modelled.
- Paths use `/` as the only separator. `Path.suffix` follows the rule `0 < rfind('.') < len - 1`, as before Python 3.14.
- `config_get` does not model the expansion of `%VARS%` and `~`, or `load_config`'s file search and caching. The configuration file is a parameter.
- `requests` and `httpx` internals are not modelled:
  - `s.cookies.get_dict()` is assumed to flatten cookies to the name→value map that `refresh` stores;
  - the cookie jar is a map keyed by (domain, name);
  - a JSON body that is not an object, or that fails to decode, counts as an empty JSON tier.
  - a response's headers are a map keyed by lower-cased names, which is how their case-insensitive lookup is modelled.
- Rendering is not modelled: the tqdm drawing, the `write` static method, the colour attribute (kept only as a `red` flag) and the closing of `tqdm._instances` stragglers by `close_all`.
- `combined_ca_bundle`, `get_system_cert_path` and `get_project_root` are file I/O. Their results are parameters.

## Behaviour kept from the code

- After a retry, later stages still start with the file's original client. Only the retried call gets the new one, because the retry changes a copy of the keyword arguments.
- Only a sheet without rows marks the bar failed. Every other error leaves the bar open until `close_all`.
- The refresh progress is 20, below the 25 shown before the first call, so a bar's percentage can go down during a retry.
- The single-spec cache is fetched over the network before the request items are built, and the request items are built from it.
- All four network operations go through the retry, the cache fetch included.
- A blank `gg` cell reads false, while a sheet without a `gg` column reads true for every row (`GgDefaults`).
