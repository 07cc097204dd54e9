# FileAuditService core in Dafny

FileAuditService is a Windows service that watches a set of input directories.
It attributes every file change to the process and user that caused it, and
appends one line per attribution to a daily audit file. This project models the
service's core, `AbstractAudit` and `CustomWatcher`, together with the records
they pass around. It proves what each operation does to the state it changes.

The modules follow the source:

- `Strings`, `Paths`: the .NET library behaviour the core relies on, written
  out as far as the core's inputs need it (see "Left out" for the path rules
  that are not). This covers `String.Contains`, `String.Replace`, `String.IndexOf`,
  `Int32.TryParse`/`Int32.Parse`, `Int32.ToString`, `Path.GetFileName`,
  `Path.GetDirectoryName`, `Path.Combine` and the `ddMMyyyy` date fields.
- `Models`:
  - the data model: `AuditQueue`, the settings, and the `AuditOutput` record (a
    class, since the resolvers set its fields in place);
  - the exception chain and the `ILogger` the core writes to (a class holding its
    entries);
  - the audit files (a class holding a map from path to text).
- `HandleOutput`: the regular expression that reads the output of Sysinternals
  `handle.exe`, `\s*pid: ([0-9]*)\s*type: ([^ ]*)\s*([^ ]*)\s*(.*?): (.*)`, as a
  hand-written leftmost, backtracking matcher applied to one line at a time. Within
  a line it is proved to pick the split the regular-expression engine picks, and to
  read back the fields of a line laid out as the tool prints it.
- `Attribution`: the two resolvers as pure specifications.
  - The `Win32_Process` query (`Win32Records`, `Win32Log`).
  - The `handle.exe` fallback (`HandleRecords`, `HandleLog`), including its quirk:
    ONE shared `AuditOutput` is listed once per accepted line.
  - The audit line format and the daily file name.
- `Watching`: `CustomWatcher` as a class whose `Start` builds a watcher and
  registers the handler delegates. Its `Stop` removes all of them except the
  Renamed registration.
- `Audit`: `AbstractAudit` as a class, with these operations:
  - `Start`, `Stop` and the two watcher callbacks;
  - the two resolvers as methods proved against the `Attribution` functions;
  - the work item the queue handler runs for one change (`AuditEvent`) and one
    iteration of the handler loop (`DispatchStep`).

Everything the core reads from outside is a parameter of the operation that
reads it:

- `DateTime.Now` is `now`.
- `File.Exists` is `fileExists`.
- The WMI query is a `QueryResult`.
- The `handle.exe` run is a `ToolRun`.
- What `Directory.CreateDirectory` throws is `outputFailure`.
- What starting the watcher for a directory meets is a `StartCheck` in `failures`.
  Either the `Path` setter rejects the directory, before the new watcher is stored,
  or `EnableRaisingEvents` cannot begin listening, after the watcher is stored with
  its handlers.

`Environment.NewLine` is `"\r\n"`.

The core reads its settings as `AuditInputDirectories` and `AuditOutputDirectory`
(`FileAuditService.Core/AbstractAudit.cs:56-60`). The settings interface declares
them as `AuditDirectoryInput` and `AuditDirectoryOutput`, the first a single string
(`FileAuditService.Core/Interfaces/IAuditorSettings.cs:5-6`). The model follows the
core: a list of input directories and one output directory. The list may be missing
from the configuration, in which case the foreach of Start meets a null reference.

## Model

| member | source | states |
|---|---|---|
| Strings.IndexOfFrom | FileAuditService.Core/AbstractAudit.cs:288 | a position found for ": " lies at or after the start and inside the line |
| Strings.IndexOfFromSpec | FileAuditService.Core/AbstractAudit.cs:288 | the lazy `(.*?): ` stops at the FIRST ": " after the handle starts, and finds none only when there is no ": " there |
| Strings.IndexOfFromIs | FileAuditService.Core/AbstractAudit.cs:288 | an occurrence with none before it is the one found |
| Strings.LastIndexBelow | FileAuditService.Core/AbstractAudit.cs:288 | a position found lies in the searched range |
| Strings.LastIndexBelowSpec | FileAuditService.Core/AbstractAudit.cs:288 | the search finds the last occurrence below the bound, and finds none only when there is none |
| Strings.LastIndexOf | FileAuditService.Core/AbstractAudit.cs:288 | a position found for the last ": " lies inside the line |
| Strings.LastIndexOfSpec | FileAuditService.Core/AbstractAudit.cs:288 | the last ": " of the line, the furthest the greedy groups can reach, is found, or none exists |
| Strings.DigitsEnd | FileAuditService.Core/AbstractAudit.cs:288 | the greedy `[0-9]*` ends inside the line, at or after its start |
| Strings.SpacesEnd | FileAuditService.Core/AbstractAudit.cs:288 | the greedy `\s*` ends inside the line, at or after its start |
| Strings.NonBlankEnd | FileAuditService.Core/AbstractAudit.cs:288 | the greedy `[^ ]*` ends inside the line, at or after its start |
| Strings.DigitsEndRun | FileAuditService.Core/AbstractAudit.cs:288 | `[0-9]*` takes only digits, and stops at the end or at a non-digit |
| Strings.SpacesEndRun | FileAuditService.Core/AbstractAudit.cs:288 | `\s*` takes only white space, and stops at the end or at a non-space |
| Strings.NonBlankEndRun | FileAuditService.Core/AbstractAudit.cs:288 | `[^ ]*` takes no space, and stops at the end or at a space |
| Strings.SpacesEndCovers | FileAuditService.Core/AbstractAudit.cs:288 | no run of white space reaches past where `\s*` stops |
| Strings.NonBlankEndCovers | FileAuditService.Core/AbstractAudit.cs:288 | no run without spaces reaches past where `[^ ]*` stops |
| Strings.DigitsEndIs | FileAuditService.Core/AbstractAudit.cs:288 | a digit run that cannot be extended is the one `[0-9]*` takes |
| Strings.SpacesEndIs | FileAuditService.Core/AbstractAudit.cs:288 | a white-space run that cannot be extended is the one `\s*` takes |
| Strings.NonBlankEndIs | FileAuditService.Core/AbstractAudit.cs:288 | a space-free run that cannot be extended is the one `[^ ]*` takes |
| Strings.DropLineBreaks | FileAuditService.Core/AbstractAudit.cs:298 | the reference definition of the clean-up leaves no '\r' and no '\n' |
| Strings.ReplaceCharIsDrop | FileAuditService.Core/AbstractAudit.cs:298 | replacing a one-character string with "" drops that character everywhere |
| Strings.DropCrThenLf | FileAuditService.Core/AbstractAudit.cs:298 | dropping '\r' and then '\n' drops every line break |
| Strings.ReplaceAll | FileAuditService.Core/AbstractAudit.cs:298 | `String.Replace` with "" never lengthens the text, and text shorter than the pattern is left as it is |
| Strings.StripLineEndings | FileAuditService.Core/AbstractAudit.cs:298 | the clean-up of a matched path never lengthens it |
| Strings.DropBreaksAfterCrLf | FileAuditService.Core/AbstractAudit.cs:298 | removing "\r\n" first changes nothing about which characters remain |
| Strings.StripLineEndingsDropsBreaks | FileAuditService.Core/AbstractAudit.cs:298 | the three `Replace` calls remove exactly the carriage returns and line feeds |
| Strings.DropLineBreaksIdentity | FileAuditService.Core/AbstractAudit.cs:298 | text without line breaks is left unchanged |
| Strings.StripLineEndingsFixes | FileAuditService.Core/AbstractAudit.cs:298 | the path compared holds no line break; a path without one is unchanged; stripping twice is stripping once |
| Strings.DigitChar | FileAuditService.Core/AbstractAudit.cs:197 | a formatted digit is an ASCII digit |
| Strings.DigitValue | FileAuditService.Core/AbstractAudit.cs:301 | a digit's value is below ten |
| Strings.NatToString | FileAuditService.Core/AbstractAudit.cs:197 | a number renders as a non-empty run of digits without a leading zero |
| Strings.IntToString | FileAuditService.Core/AbstractAudit.cs:197 | `ToString` of a ProcessID is non-empty, starts with "-" exactly for a negative number, and is digits otherwise |
| Strings.ParseInt32 | FileAuditService.Core/AbstractAudit.cs:231 | a parsed value lies within the Int32 range |
| Strings.DigitsValueAppend | FileAuditService.Core/AbstractAudit.cs:301 | appending a digit multiplies the value by ten and adds the digit |
| Strings.NatToStringValue | FileAuditService.Core/AbstractAudit.cs:197 | a rendered number's digits read back as the number |
| Strings.TrimIdentity | FileAuditService.Core/AbstractAudit.cs:231 | trimming leaves a non-empty string that neither starts nor ends with white space unchanged |
| Strings.IntToStringRoundTrip | FileAuditService.Core/AbstractAudit.cs:231 | `TryParse` of an Int32's `ToString` gives the number back, negatives included |
| Strings.ParseDigitsOnly | FileAuditService.Core/AbstractAudit.cs:301 | on the captured digits, `int.Parse` fails exactly for the empty string or a value above Int32.MaxValue, and otherwise gives their decimal value |
| Strings.TwoDigits | FileAuditService.Core/AbstractAudit.cs:177 | `dd` and `MM` are two ASCII digits |
| Strings.FourDigits | FileAuditService.Core/AbstractAudit.cs:177 | `yyyy` is four ASCII digits |
| Strings.TwoDigitsValue | FileAuditService.Core/AbstractAudit.cs:177 | a two-digit field reads back as its number, digit by digit |
| Strings.FixedDigitsValue | FileAuditService.Core/AbstractAudit.cs:177 | the zero-padded day, month and year fields read back as their numbers |
| Paths.LastSeparatorBelow | FileAuditService.Core/AbstractAudit.cs:155-156 | the separator found is the last one in the prefix; none is found only when the prefix has no separator |
| Paths.GetFileName | FileAuditService.Core/AbstractAudit.cs:156 | the file name is a suffix of the path that holds no separator |
| Paths.GetDirectoryName | FileAuditService.Core/AbstractAudit.cs:155 | the directory is a prefix of the path, and a non-empty one is followed in the path by a separator |
| Paths.Combine | FileAuditService.Core/AbstractAudit.cs:178 | an empty directory gives the name alone; otherwise the result starts with the directory |
| Paths.SplitPathRoundTrip | FileAuditService.Core/AbstractAudit.cs:155-156 | the file name holds no separator, and the directory, the separator and the file name give the full path back |
| Paths.CombineThenFileName | FileAuditService.Core/AbstractAudit.cs:178 | the file name of the combined audit path is the name it was combined with |
| Models.Link | FileAuditService.Core/AbstractAudit.cs:322 | every link of the inner-exception chain below its depth is an exception |
| Models.ErrorText | FileAuditService.Core/AbstractAudit.cs:321 | the text logged for one link: "Message: ", the message, " \r\nStacktrace: " and the stack trace (read through ChainLogLinks) |
| Models.ChainLog | FileAuditService.Core/AbstractAudit.cs:315-324 | the entries the handler logs for an exception; ChainLogLinks proves one error per link, outermost first |
| Models.ChainLogLinks | FileAuditService.Core/AbstractAudit.cs:315-324 | the handler logs exactly one error per link of the chain, outermost first, each with its message and stack trace |
| Models.Logger.constructor | FileAuditService.Core/AbstractAudit.cs:23 | a new logger holds no entries |
| Models.Logger.LogInformation | FileAuditService.Core/AbstractAudit.cs:53 | appends one information entry and nothing else |
| Models.Logger.LogError | FileAuditService.Core/AbstractAudit.cs:321 | appends one error entry and nothing else |
| Models.AuditOutput.constructor | FileAuditService.Core/Models/AuditOutput.cs:14-17 | a new record has ProcessID -1 and default fields |
| Models.AuditOutput.Set | FileAuditService.Core/Models/AuditOutput.cs:8-11 | after the property setters the record holds exactly the given value |
| Models.Snapshot | FileAuditService.Core/AbstractAudit.cs:190 | the values the list holds correspond one to one to its objects |
| Models.SnapshotAt | FileAuditService.Core/AbstractAudit.cs:190 | entry i of the values is what the i-th listed object holds |
| Models.Repeat | FileAuditService.Core/AbstractAudit.cs:305 | n copies of one value, as a list holding one shared object n times reads |
| Models.FileStore.constructor | FileAuditService.Core/AbstractAudit.cs:179 | the store starts with the given files |
| Models.FileStore.Create | FileAuditService.Core/AbstractAudit.cs:180 | `File.Create(path).Close()` leaves an empty file at path and changes no other file |
| Models.FileStore.AppendAllText | FileAuditService.Core/AbstractAudit.cs:200 | the text is appended to the file's content, or becomes it when the file is missing; no other file changes |
| HandleOutput.TailSplit | FileAuditService.Core/AbstractAudit.cs:288 | the chosen split keeps its positions in order within the line |
| HandleOutput.TailSplitValid | FileAuditService.Core/AbstractAudit.cs:288 | the chosen split is a way `([^ ]*)\s*([^ ]*)\s*(.*?): (.*)` can match |
| HandleOutput.TailSplitIsMatcherChoice | FileAuditService.Core/AbstractAudit.cs:288 | whenever any split matches, the one chosen is found and is the first a backtracking matcher tries |
| HandleOutput.TailSplitNone | FileAuditService.Core/AbstractAudit.cs:288 | no split exists exactly when no ": " follows "type: " |
| HandleOutput.MatchAfterPid | FileAuditService.Core/AbstractAudit.cs:288 | the pid group of a match is all digits |
| HandleOutput.FirstWhere | FileAuditService.Core/AbstractAudit.cs:290 | the least position where a match starts, or none in the range |
| HandleOutput.LeftmostMatch | FileAuditService.Core/AbstractAudit.cs:290 | the match found is the leftmost, or there is no match at all |
| HandleOutput.ParseLine | FileAuditService.Core/AbstractAudit.cs:288-290 | a line yields groups exactly when the pattern matches somewhere in it, and the pid group is digits |
| HandleOutput.SplitLines | FileAuditService.Core/AbstractAudit.cs:290 | the output cut into lines that hold no line feed |
| HandleOutput.SplitLinesRoundTrip | FileAuditService.Core/AbstractAudit.cs:290 | cutting the output into lines loses nothing: joining them gives it back |
| HandleOutput.JoinLinesRoundTrip | FileAuditService.Core/AbstractAudit.cs:290 | lines joined with '\n' cut back into the same lines |
| HandleOutput.ParsedLines | FileAuditService.Core/AbstractAudit.cs:290-292 | every match of the lines has an all-digit pid |
| HandleOutput.ParseOutput | FileAuditService.Core/AbstractAudit.cs:290-292 | every match of the output has an all-digit pid |
| HandleOutput.RenderedRuns | FileAuditService.Core/AbstractAudit.cs:288 | on a printed line the greedy runs stop where the type, the user and their white space end |
| HandleOutput.RenderedTail | FileAuditService.Core/AbstractAudit.cs:288 | the groups after "type: " split a printed line where it was put together |
| HandleOutput.WordThenGap | FileAuditService.Core/AbstractAudit.cs:288 | a word without spaces and the white space after it are exactly what `[^ ]*\s*` takes |
| HandleOutput.SeparatorAfterHandle | FileAuditService.Core/AbstractAudit.cs:288 | the lazy handle group ends at the ": " after a handle holding none |
| HandleOutput.TailSplitIs | FileAuditService.Core/AbstractAudit.cs:288 | the split is determined by where the greedy runs end and the first ": " after them |
| HandleOutput.RenderedPieces | FileAuditService.Core/AbstractAudit.cs:288 | a printed line consists of the column, "pid: " and the fields with their white space, in order |
| HandleOutput.HeadRuns | FileAuditService.Core/AbstractAudit.cs:288 | the pid group takes all the digits and `\s*` the white space after them |
| HandleOutput.MatchAfterPidIs | FileAuditService.Core/AbstractAudit.cs:288 | the match after "pid: " is determined by its runs and its split |
| HandleOutput.GroupsOfRendered | FileAuditService.Core/AbstractAudit.cs:294-298 | the groups of a printed line are its pid, type, user, handle and path |
| HandleOutput.ParseLineAt | FileAuditService.Core/AbstractAudit.cs:290 | a match at the first "pid: " of the line is the match of the line |
| HandleOutput.ColumnHasNoPid | FileAuditService.Core/AbstractAudit.cs:288 | no match starts inside the leading column of a printed line |
| HandleOutput.ParseFromFacts | FileAuditService.Core/AbstractAudit.cs:288-290 | the head and tail facts of a line determine its groups |
| HandleOutput.HeadFactsOfLaidOut | FileAuditService.Core/AbstractAudit.cs:288 | a laid-out line has the head facts at its "pid: " |
| HandleOutput.TailFactsOfLaidOut | FileAuditService.Core/AbstractAudit.cs:288 | a laid-out line has the tail facts after its "type: " |
| HandleOutput.ParseLaidOut | FileAuditService.Core/AbstractAudit.cs:288-290 | a line whose fields sit in order, with no "pid: " before them, yields those fields |
| HandleOutput.ParseRendered | FileAuditService.Core/AbstractAudit.cs:288-298 | a line laid out as the tool prints it reads back as its five fields |
| HandleOutput.MatchHasSeparator | FileAuditService.Core/AbstractAudit.cs:288 | every match has a "type: " and a ": " after it |
| HandleOutput.NoHandleSeparatorNoMatch | FileAuditService.Core/AbstractAudit.cs:288 | a line without ": " after any "type: " yields no match |
| Attribution.RowRecordSpec | FileAuditService.Core/AbstractAudit.cs:228-248 | a process yields an entry exactly when GetOwner returned 0 and set both names; the entry holds domain\user, the event's time and access type, and the parsed ProcessID |
| Attribution.RowProcessId | FileAuditService.Core/AbstractAudit.cs:230-232 | a ProcessID is in the Int32 range, and any other than -1 is what `int.TryParse` read from the ProcessId text |
| Attribution.RowRecord | FileAuditService.Core/AbstractAudit.cs:233-248 | the entry a process yields, if any; RowRecordSpec states when and what it holds |
| Attribution.RowProcessIdSpec | FileAuditService.Core/AbstractAudit.cs:230-232 | ProcessID stays -1 when ProcessId is null or not an Int32, and is n when ProcessId is n's text |
| Attribution.Win32RecordsAppend | FileAuditService.Core/AbstractAudit.cs:224-254 | entries keep the enumeration order: two runs of processes give their entries one after the other |
| Attribution.Win32RecordsFields | FileAuditService.Core/AbstractAudit.cs:224-254 | at most one entry per process, each with the event's time and access type and a domain\user owner |
| Attribution.Win32Records | FileAuditService.Core/AbstractAudit.cs:224-254 | at most one entry per process enumerated |
| Attribution.Win32Log | FileAuditService.Core/AbstractAudit.cs:250-261 | the errors of the processes, then "Error Query" and the chain of a failed query; QueryRows and Win32ProcessQuery log exactly this |
| Attribution.Decided | FileAuditService.Core/AbstractAudit.cs:299-301 | the matches that are not passed over are at most all of them |
| Attribution.DecidedSpec | FileAuditService.Core/AbstractAudit.cs:299-301 | the matches whose path is not the event's are dropped and no other match is, in order: the kept matches are those taken or rejected |
| Attribution.DecidedOne | FileAuditService.Core/AbstractAudit.cs:299-300 | a single match is kept exactly when its verdict is not a pass-over |
| Attribution.TakesBeforeReject | FileAuditService.Core/AbstractAudit.cs:301 | the count of accepted matches before the first rejected pid is within the list |
| Attribution.TakesBeforeRejectSpec | FileAuditService.Core/AbstractAudit.cs:301 | the count stops exactly at the first match whose pid `int.Parse` rejects |
| Attribution.Judge | FileAuditService.Core/AbstractAudit.cs:298-304 | the verdict on one match; JudgeSpec states when it is passed over, taken or rejected |
| Attribution.DecidedAppend | FileAuditService.Core/AbstractAudit.cs:292-306 | the matches kept from two runs of verdicts are those of the first run followed by those of the second; one verdict is kept exactly when it is not passed over |
| Attribution.ScanVerdicts | FileAuditService.Core/AbstractAudit.cs:292-306 | the scan from a given count and entry over the remaining verdicts; ScanStep and ScanVerdictsClosedForm state what it gives |
| Attribution.ScanOutput | FileAuditService.Core/AbstractAudit.cs:288-306 | the scan of the matches of the tool output from no listing and a fresh entry; HandleRecordsSpec and HandleLogSpec read it off |
| Attribution.DecidedShape | FileAuditService.Core/AbstractAudit.cs:301-305 | the last match counted was accepted, and the match where counting stops was rejected |
| Attribution.ScanCount | FileAuditService.Core/AbstractAudit.cs:292-306 | the loop lists the shared entry once per accepted match before the first rejected pid |
| Attribution.ScanFailedPid | FileAuditService.Core/AbstractAudit.cs:301-312 | the loop ends at the first rejected pid and reports it, or reports none |
| Attribution.ScanValue | FileAuditService.Core/AbstractAudit.cs:291-305 | the shared entry holds what the last accepted match set, or its initial value when none was |
| Attribution.ScanVerdictsClosedForm | FileAuditService.Core/AbstractAudit.cs:291-312 | the loop's count, shared value and failure, all together in closed form |
| Attribution.JudgeSpec | FileAuditService.Core/AbstractAudit.cs:298-304 | a match is passed over exactly when its path, with line breaks dropped, differs from the event's; an accepted match sets its parsed pid and user, or fails when the pid is empty or above Int32.MaxValue |
| Attribution.HandleRecordsSpec | FileAuditService.Core/AbstractAudit.cs:270-306 | no tool path gives no entries; otherwise one listing per accepted match before the first rejected pid, each holding what the last one set |
| Attribution.HandleLogSpec | FileAuditService.Core/AbstractAudit.cs:270-312 | no tool path logs nothing; otherwise an error is logged exactly when an accepted match has a pid `int.Parse` rejects |
| Attribution.HandleRecords | FileAuditService.Core/AbstractAudit.cs:270-306 | no entries without a tool path or when the tool fails to run; all entries listed are the same one shared object |
| Attribution.HandleLog | FileAuditService.Core/AbstractAudit.cs:270-312 | nothing is logged without a tool path, and anything logged starts with "Error Path: " and the event's path |
| Attribution.ScanLog | FileAuditService.Core/AbstractAudit.cs:301-311 | the scan logs the event's path and the int.Parse failure exactly when a pid was rejected (HandleOutcome) |
| Attribution.Written | FileAuditService.Core/AbstractAudit.cs:192-193 | only entries with a resolved ProcessID are written, all taken from the list |
| Attribution.AuditTextIsWrittenLines | FileAuditService.Core/AbstractAudit.cs:190-201 | the text appended is one line per resolved entry, in list order, each ended by "\r\n" |
| Attribution.AuditLogIsWrittenLines | FileAuditService.Core/AbstractAudit.cs:194-199 | one information entry is logged per written line, holding that line, in the same order |
| Attribution.AuditText | FileAuditService.Core/AbstractAudit.cs:190-201 | no entries append nothing; AuditTextIsWrittenLines gives the text in full |
| Attribution.AuditLog | FileAuditService.Core/AbstractAudit.cs:190-199 | at most one information entry per listed entry, and only information entries |
| Attribution.UnresolvedWriteNothing | FileAuditService.Core/AbstractAudit.cs:192-193 | a list whose entries all have ProcessID -1 writes nothing and logs nothing |
| Attribution.FallbackOnlyWhenEmpty | FileAuditService.Core/AbstractAudit.cs:182-187 | the handle.exe fallback is used exactly when the query found nothing; a query result with no resolved entry blocks it and writes nothing |
| Attribution.AuditFileNameFields | FileAuditService.Core/AbstractAudit.cs:177 | the file name is `audit_` plus the zero-padded day, month and year plus `.txt`, and its fields read back as the date |
| Attribution.AuditFileNameInjective | FileAuditService.Core/AbstractAudit.cs:177 | two dates share an audit file only when they are the same day |
| Attribution.AuditFileName | FileAuditService.Core/AbstractAudit.cs:177 | the name has 18 characters, starting with "audit_" and ending with ".txt" |
| Watching.LastOccurrenceBelow | FileAuditService.Core/Models/CustomWatcher.cs:57-63 | the position found is the last occurrence of the removed list below the bound, or there is none |
| Watching.Remove | FileAuditService.Core/Models/CustomWatcher.cs:57-63 | `-=` either leaves the invocation list as it is or takes out exactly the removed list's length, and removing nothing changes nothing |
| Watching.RemoveUndoesCombine | FileAuditService.Core/Models/CustomWatcher.cs:41-59 | removing a handler just added restores the delegate, so Start then Stop leaves Changed, Created and Deleted empty |
| Watching.OccursAtSingle | FileAuditService.Core/Models/CustomWatcher.cs:57-63 | a single handler occurs exactly where it is in the invocation list |
| Watching.RemoveOne | FileAuditService.Core/Models/CustomWatcher.cs:57-63 | removing a handler takes out its last registration only, or changes nothing when it is absent |
| Watching.StartedSpec | FileAuditService.Core/Models/CustomWatcher.cs:30-52 | the new watcher watches the stored directory, holds the stored buffer size and filter as the `FileSystemWatcher` setters keep them, and raises events; the queue action is registered on Changed, Created and Deleted, the renamed action only when the queue action is set, and the error action on Error |
| Watching.StopKeepsRenamed | FileAuditService.Core/Models/CustomWatcher.cs:53-65 | after Start then Stop, changes and errors reach no handler, but renames still reach the renamed action and events are still raised |
| Watching.Started | FileAuditService.Core/Models/CustomWatcher.cs:32-51 | the watcher Start builds, through the `FileSystemWatcher` setters; StartedSpec states its configuration and what each kind of event reaches |
| Watching.BufferSizeSet | FileAuditService.Core/Models/CustomWatcher.cs:34 | the buffer size a watcher keeps is at least 4096, and it is the size set exactly when that size is 4096 or more |
| Watching.FilterSet | FileAuditService.Core/Models/CustomWatcher.cs:37 | the filter a watcher keeps is never "" or "*.*", and it is the filter set exactly when that filter is neither |
| Watching.SettersIdempotent | FileAuditService.Core/Models/CustomWatcher.cs:34-37 | setting the buffer size or filter a watcher keeps changes nothing |
| Watching.Stopped | FileAuditService.Core/Models/CustomWatcher.cs:55-64 | the watcher after Stop; StopKeepsRenamed states what still reaches a handler |
| Watching.Deliver | FileAuditService.Core/Models/CustomWatcher.cs:41-51 | the handlers a change reaches: none while the watcher does not raise events |
| Watching.CustomWatcher.StartedWith | FileAuditService.Core/Models/CustomWatcher.cs:30-52 | the watcher Start leaves stored for each outcome: the built one, the previous one when the Path setter rejects, the built one with events off when EnableRaisingEvents fails |
| Watching.CustomWatcher.constructor | FileAuditService.Core/Models/CustomWatcher.cs:21-28 | the configuration is stored unchanged, with no handler and no watcher |
| Watching.CustomWatcher.Start | FileAuditService.Core/Models/CustomWatcher.cs:30-52 | stores the built watcher with its handlers and events on; a rejected Path throws before anything is stored; a failed `EnableRaisingEvents` throws after the watcher is stored with its handlers and events off |
| Watching.CustomWatcher.Stop | FileAuditService.Core/Models/CustomWatcher.cs:53-65 | removes the handlers from the stored watcher, or throws a NullReferenceException when a handler is set but no watcher was stored |
| Audit.FirstRejected | FileAuditService.Core/AbstractAudit.cs:60-81 | the first input directory whose watcher fails to start, with every one before it starting |
| Audit.MonitorLog | FileAuditService.Core/AbstractAudit.cs:62 | one "Monitor Path" entry per directory reached |
| Audit.MonitorLogEntries | FileAuditService.Core/AbstractAudit.cs:60-62 | entry i of the "Monitor Path" entries names input directory i, in directory order |
| Audit.SettingsLog | FileAuditService.Core/AbstractAudit.cs:53-55 | the three settings entries Start logs first; LogSettings writes them |
| Audit.TryLog | FileAuditService.Core/AbstractAudit.cs:60-81 | the try block's entries: one "Monitor Path" per watcher added (StartOutcome) |
| Audit.StartLog | FileAuditService.Core/AbstractAudit.cs:49-91 | everything Start logs; StartOutcome gives it for each kind of settings |
| Audit.TryThrownSucceeds | FileAuditService.Core/AbstractAudit.cs:56-84 | the try block meets no exception exactly when the output directory is set and created, the list of input directories is present, and every watcher starts |
| Audit.WatchersAdded | FileAuditService.Core/AbstractAudit.cs:56-81 | Start adds at most one watcher per input directory, and none when the list is missing |
| Audit.StartOutcome | FileAuditService.Core/AbstractAudit.cs:49-91 | an empty output directory adds no watcher and logs the error; a missing list of input directories adds no watcher and logs the `NullReferenceException` of the foreach; a successful Start adds one watcher per directory; a failing watcher is kept with those before it, and its failure is logged |
| Audit.QueueRecordSpec | FileAuditService.Core/AbstractAudit.cs:151-158 | the queued record holds the reported path, the change kind and the time, and its directory and file name rebuild the path |
| Audit.QueueRecord | FileAuditService.Core/AbstractAudit.cs:151-158 | the record queued for a change; QueueRecordSpec states what it holds |
| Audit.Ignored | FileAuditService.Core/AbstractAudit.cs:147-150 | the paths both callbacks pass over; the callbacks queue exactly when it is false |
| Audit.FirstStopThrowing | FileAuditService.Core/AbstractAudit.cs:94-97 | the first listed watcher whose Stop throws, with every one before it stopping cleanly |
| Audit.AddedStopThrows | FileAuditService.Core/Models/CustomWatcher.cs:53-65 | a watcher Start added throws on Stop exactly when the Path setter rejected its directory; one whose EnableRaisingEvents failed stops cleanly |
| Audit.WiredWatcherDelivery | FileAuditService.Core/AbstractAudit.cs:63-80 | a started watcher watches its directory with notify filter 383, with the settings' buffer size and filter as the setters keep them, and delivers changes, renames and errors to the three callbacks; once stopped it delivers renames only; one whose `EnableRaisingEvents` failed delivers nothing |
| Audit.AddedForAppend | FileAuditService.Core/AbstractAudit.cs:79 | appending the watcher for the next directory extends the list of watchers |
| Audit.AuditStep | FileAuditService.Core/AbstractAudit.cs:190-201 | one more entry adds its line, if written, to the text and to the log |
| Audit.ScanStep | FileAuditService.Core/AbstractAudit.cs:292-306 | the verdict on the next match decides the rest of the loop |
| Audit.Win32Step | FileAuditService.Core/AbstractAudit.cs:224-254 | one more process extends the entries and the log by its own |
| Audit.SnapshotAppend | FileAuditService.Core/AbstractAudit.cs:248 | adding an object to a list adds its value to the list's values |
| Audit.HandleOutcome | FileAuditService.Core/AbstractAudit.cs:264-314 | the entries and log of a tool run, read off the loop over its matches |
| Audit.Resolved | FileAuditService.Core/AbstractAudit.cs:182-187 | the entries an event is attributed to; FallbackOnlyWhenEmpty states when handle.exe is used |
| Audit.ResolveLog | FileAuditService.Core/AbstractAudit.cs:182-187 | what the two resolvers log; handle.exe logs only when the query found nothing |
| Audit.AuditFilePath | FileAuditService.Core/AbstractAudit.cs:177-178 | the day's audit file; CombineThenFileName gives its name back |
| Audit.AbstractAudit.constructor | FileAuditService.Core/AbstractAudit.cs:34-41 | empty queue, no watchers, not running, the given logger and settings |
| Audit.AbstractAudit.DetailedExceptionHandler | FileAuditService.Core/AbstractAudit.cs:315-324 | logs one error per link of the inner-exception chain, outermost first |
| Audit.AbstractAudit.NewWatcher | FileAuditService.Core/AbstractAudit.cs:63-78 | a new watcher for the directory with the settings, filter 383 and the three callbacks attached |
| Audit.AbstractAudit.LogSettings | FileAuditService.Core/AbstractAudit.cs:53-55 | logs the buffer size, filter and subdirectory flag, in that order |
| Audit.AbstractAudit.WatchNext | FileAuditService.Core/AbstractAudit.cs:62-80 | logs the directory, appends its new watcher and starts it |
| Audit.AbstractAudit.WatchAll | FileAuditService.Core/AbstractAudit.cs:60-81 | logs and adds watchers up to and including the first that fails, and returns what it threw |
| Audit.AbstractAudit.Start | FileAuditService.Core/AbstractAudit.cs:49-91 | running becomes true exactly when Start gets through; the log is the settings, the monitored paths and any exception chain; watchers are appended as far as Start got |
| Audit.AbstractAudit.TryBlock | FileAuditService.Core/AbstractAudit.cs:56-81 | the try block meets the first of: empty output directory, directory creation failure, a foreach over a missing list of input directories, first watcher failure |
| Audit.AbstractAudit.Stop | FileAuditService.Core/AbstractAudit.cs:92-100 | stops every watcher and returns false; a watcher whose directory the Path setter rejected throws, which ends it, leaves later watchers and running untouched, and the exception escapes |
| Audit.AbstractAudit.FileSystemWatcherOnError | FileAuditService.Core/AbstractAudit.cs:101-113 | logs the chain of the reported exception, nothing for null |
| Audit.AbstractAudit.FileSystemWatcherOnOnRenamed | FileAuditService.Core/AbstractAudit.cs:114-138 | queues the rename unless its path holds "~$" or the file does not exist |
| Audit.AbstractAudit.FileSystemWatcherQueue | FileAuditService.Core/AbstractAudit.cs:139-165 | queues the change unless it is a rename, its path holds "~$" or the file does not exist |
| Audit.AbstractAudit.ProcessOutput | FileAuditService.Core/AbstractAudit.cs:226-253 | a fresh entry, kept exactly when the process yields one and then holding it; a GetOwner exception is logged |
| Audit.AbstractAudit.Win32ProcessQuery | FileAuditService.Core/AbstractAudit.cs:214-263 | returns distinct fresh entries holding the process records; logs row errors, and "Error Query" plus the chain when the query fails |
| Audit.AbstractAudit.QueryRows | FileAuditService.Core/AbstractAudit.cs:224-254 | the loop over the processes yields their entries and logs their errors, in order |
| Audit.AbstractAudit.ApplyMatch | FileAuditService.Core/AbstractAudit.cs:294-305 | gives the verdict on one match; the shared entry changes only when the match is accepted |
| Audit.AbstractAudit.ScanOne | FileAuditService.Core/AbstractAudit.cs:292-305 | one pass of the loop: the verdict on the match, the shared entry listed again when it is accepted, and the rest of the scan carried on unless the pid is rejected |
| Audit.AbstractAudit.ScanMatches | FileAuditService.Core/AbstractAudit.cs:291-312 | returns one shared fresh entry listed once per accepted match before the first rejected pid; logs "Error Path" and the chain for that pid |
| Audit.AbstractAudit.LogPathError | FileAuditService.Core/AbstractAudit.cs:308-311 | logs "Error Path: " with the event's path, then the chain of the exception |
| Audit.AbstractAudit.HandleExecutableProcess | FileAuditService.Core/AbstractAudit.cs:264-314 | returns the entries and logs what the handle.exe specification says, and runs nothing without a tool path |
| Audit.AbstractAudit.Resolve | FileAuditService.Core/AbstractAudit.cs:182-187 | the query's entries, or handle.exe's when the query found none, with both resolvers' logs |
| Audit.AbstractAudit.WriteEntry | FileAuditService.Core/AbstractAudit.cs:192-200 | an entry with a resolved ProcessID appends its line to the file and logs it; one with -1 changes nothing |
| Audit.AbstractAudit.WriteEntries | FileAuditService.Core/AbstractAudit.cs:190-201 | appends the audit text of the entries to the file and logs each written line |
| Audit.AbstractAudit.AuditEvent | FileAuditService.Core/AbstractAudit.cs:173-207 | the day's audit file gains exactly the lines of the resolved entries, and no other file changes |
| Audit.AbstractAudit.CreateIfMissing | FileAuditService.Core/AbstractAudit.cs:179-180 | the audit file exists afterwards with its old content, or empty when it was missing |
| Audit.AbstractAudit.DispatchStep | FileAuditService.Core/AbstractAudit.cs:169-207 | while running, dequeues the front change and audits it; otherwise, or with nothing queued, changes nothing |
| Audit.StopEach | FileAuditService.Core/AbstractAudit.cs:94-97 | stops the watchers in order up to the first whose Stop throws (one whose Path was rejected), and leaves the rest untouched |
| Audit.SharedSnapshot | FileAuditService.Core/AbstractAudit.cs:291-305 | a list holding one object n times reads as its value n times |

## Left out

- Concurrency is not modelled. The thread-pool work items, the `Task` running the queue handler, its busy `while (_running)` loop and the `DomainUnload` hook are absent. One iteration of the handler is `DispatchStep`, and the work item for one change is `AuditEvent`. Each callback and work item runs atomically.
- WMI (`ManagementObjectSearcher`, `GetOwner`), the `cmd /c handle.exe` process, `File.Exists`, `Directory.Exists`/`CreateDirectory` and `DateTime.Now` are not modelled. They are external, so what they return or throw is a parameter of the operation.
- `Audit.AbstractAudit.Start`: `FileSystemWatcher`'s own checks (the directory exists, it can be opened for listening) are not computed. Their outcome per directory is given in `failures`, as a rejection by the `Path` setter or by `EnableRaisingEvents`.
- `Audit.AbstractAudit.AuditEvent`: an exception from `File.Create` or `File.AppendAllText` (a locked or unwritable file) is not modelled. Only the paths where those calls succeed are covered.
- `HandleOutput.ParseOutput`: the pattern is applied line by line. In the real engine, `\s*` and the `[^ ]*` type and user groups also match '\r' and '\n', so a match can run across a line break. Matches that begin on one line and end on a later one are not modelled.
- `HandleOutput.TailSplitIsMatcherChoice`: the split is the engine's choice within one line only, for the same reason.
- `Models.ErrorText`: an exception that reaches the core from outside carries its message and stack trace as given text. This covers a watcher error, a failed query, a failed tool start, a watcher that cannot start and a failed directory creation.
- `Models.Raise`: the model's own exceptions get an empty stack trace and the English .NET message. This is a simplification: .NET records the stack trace of the throw site and localises the message.
- `Audit.StartOutcome`: the entries logged for the empty output directory and for the missing list of input directories end in "Stacktrace: " with nothing after it. The service writes the stack trace of `Start` there.
- `Attribution.PidParseFailure`: the `FormatException`/`OverflowException` of `int.Parse` is logged with an empty stack trace.
- `Watching.CustomWatcher.Stop`: the `NullReferenceException` it throws has an empty stack trace. The same holds for `Audit.StopEach` and `Audit.AbstractAudit.Stop`, which pass it on.
- `Paths.GetDirectoryName`: only the cut at the last separator is modelled. .NET keeps the separator of a root ("C:\\a.txt" gives "C:\\"), turns '/' into '\\' and collapses repeated separators. The `Directory` field it fills is never read by the rest of the core. `Audit.QueueRecordSpec`'s claim that directory and file name rebuild the path holds of this splitting.
- `Paths.Combine`: a rooted second argument is not handled. The core only combines the output directory with the day's file name, which is never rooted.
- The `cmd /c` command line that starts `handle.exe` (`FileAuditService.Core/AbstractAudit.cs:272-277`) is not built. What the run gives is the `ToolRun` parameter.
- `Models.DateTime`: `DateTime.ToString()` in the current culture is not computed. Each date carries its rendered text.
- `Models.ChangeKind`: only the four `WatcherChangeTypes` a watcher delivers are modelled. Combined flag values and `All` are not.
- `Watching.CustomWatcher.Start`: the replaced `FileSystemWatcher` is not disposed, and its buffer and events are not modelled.
- `Audit.AbstractAudit.Stop`: the `NullReferenceException` that a watcher whose directory the `Path` setter rejected raises is an outcome (`Threw`), not a precondition. The service calls `Stop` after a failed `Start` too.
- `Audit.AbstractAudit.Stop`: the order in which exceptions reach the host is not modelled; only what escapes is.
- Null settings strings are read as "". The core only tests them with `string.IsNullOrEmpty`, interpolates them or hands them to the `Filter` setter, and each of these treats null as "". A list of input directories missing from the configuration is `None`.
- `Audit.AbstractAudit.Start`: a configuration without an `AuditorSettings` section is not modelled. There `Get<AuditorSettings>()` gives null (`FileAuditService/Program.cs:68-69`), and Start meets a `NullReferenceException` at its first settings read (`FileAuditService.Core/AbstractAudit.cs:53`), so the catch logs that exception alone. The model always has a settings value.
- `Int32` arithmetic never overflows in the core. The only width that matters is the range `Int32.TryParse`/`int.Parse` accept, and that range is modelled.
- `Program.cs`, `Worker.cs`, `Auditor.cs` and the interfaces are not part of this model. They host and configure the core without adding behaviour.
