# gs-logger in Dafny

A model of gs-logger, a small logging library for a .NET desktop application, with proofs about it.

**The dispatcher.** `Log` is a static class that applications call with `Error`, `Warning`, `Info` and `Debug`. Each call does two things:

- While crash dumping is on, it stores a `LogEntry` in a bounded history. This is a `FixedSizeQueue` holding the 60 most recent entries.
- It calls the registered `IDebugListener`s in registration order, with no filtering by level. Nothing catches a listener's exception: it ends the call there, the later listeners are skipped and the entry stays recorded.

`LogCrashDump` hands one snapshot of the history to each registered `IDebugCrashDumper` in turn, until one throws. The handler for unhandled exceptions does four things in order: it logs the exception, dumps the history, shows a message box and exits. A listener or crash dumper that throws ends the handler at that step.

**The sinks.** There are two, and each is both a listener and a crash dumper:

- `TextLogger` writes fixed-column text lines. It moves to a new work file past 1 MiB. After each log-line write it runs a cleanup pass over the current directory, keeping the five newest files of each of its two prefixes (by default `Log_` and `Crash_`). Writing a crash dump does not clean up.
- `HtmlLogger` writes a page with a style sheet whose colours come from `GsColor`. It renders exception chains with collapsible stack-trace blocks, numbered by a counter.

Both sinks drop calls below their threshold level. A failed write, cleanup pass or file creation turns them `Silent`, and a `Silent` sink ignores every later log call. The work-file delete in `TextLogger`'s `LogPreffix` setter has no such guard.

**How the model is built.** There is one module per source file:

| module | source |
|---|---|
| `Levels` | `IDebugListener.cs` |
| `Entries` | `LogEntry.cs` |
| `Queues` | `FixedSizeQueue.cs` |
| `Dispatch` | `Log.cs` |
| `TextSink` | `TextLogger.cs` |
| `HtmlSink` | `HTMLLogger.cs` |
| `Colors` | `Color.cs` |

Shared modules sit beside them:

- `Platform`: null references, exceptions, the clock reading and `Environment.NewLine`.
- `Strings`: padding, decimal rendering and UTF-8 length.
- `Files`: the file system as a map from path to content and creation time, plus the retention pass both sinks share.
- `DumpPlan`: the per-level rules both sinks use to render a crash dump.

Objects that the source updates in place are Dafny classes with `modifies` clauses: the queue, the dispatcher and both sinks.

The outside world comes in as parameters:

- The clock is one `Instant` reading per call.
- Whether a write, a file creation or a cleanup pass fails is a boolean per call.
- A listener or crash dumper is an abstract id. Every call the dispatcher makes on one is recorded in a ghost trace, as are the message box and the exit.
- Which listeners and crash dumpers throw when called is a set of ids per call.
- Console output is a ghost list of lines.

## Model

| member | source | states |
|---|---|---|
| Levels.Ordinal | IDebugListener.cs:25-28 | every level's underlying value is between 0 and 4 |
| Levels.FromOrdinal | IDebugListener.cs:27 | the cast of a value 0..4 yields the level whose value it is |
| Levels.OrdinalRoundTrip | IDebugListener.cs:27 | casting a level's value back gives the same level (the five values are distinct) |
| Levels.AdmitsIsTotalOrder | TextLogger.cs:110 | the sinks' test `threshold >= level` is reflexive, antisymmetric, transitive and total |
| Levels.SilentAndDebugAreExtremes | IDebugListener.cs:27 | a Silent threshold admits only Silent; a Debug threshold admits every level |
| Levels.CallLevel | IDebugListener.cs:10-17 | each listener method is named after a level other than Silent |
| Levels.OnlyWarningAndErrorCarryExceptions | IDebugListener.cs:13-17 | a call that carries an exception (a `Fault` payload) is a Warning or Error call, and LogWarning and LogError each accept any exception |
| Entries.NewEntry | LogEntry.cs:11-17 | the constructor stores its four arguments unchanged |
| Entries.ExceptionDefaultsToNull | LogEntry.cs:11 | leaving out the exception argument gives a null exception |
| Queues.LastNShape | FixedSizeQueue.cs:10-17 | the retained items are the last min(count, limit) items inserted, in their original order |
| Queues.FixedSizeQueue.constructor | FixedSizeQueue.cs:19-22 | a new queue is empty with the given limit |
| Queues.FixedSizeQueue.Count | FixedSizeQueue.cs:15 | Count is the number of queued items |
| Queues.FixedSizeQueue.SetLimit | FixedSizeQueue.cs:9 | setting Limit evicts nothing until the next Enqueue |
| Queues.FixedSizeQueue.Enqueue | FixedSizeQueue.cs:10-17 | after Enqueue the queue holds the last `limit` items of the old contents plus the new item |
| Queues.NewestIsRetained | FixedSizeQueue.cs:10-17 | with a positive limit, the item just enqueued is kept as the newest |
| Queues.ZeroLimitKeepsNothing | FixedSizeQueue.cs:15 | with limit 0 the queue is empty after every Enqueue |
| Queues.EvictionCount | FixedSizeQueue.cs:15 | Enqueue evicts nothing when everything fits, and otherwise exactly the items over the limit |
| Queues.LastNAppend | FixedSizeQueue.cs:10-17 | trimming before an insertion gives the same result as trimming everything ever inserted |
| Queues.ReplayKeepsMostRecent | FixedSizeQueue.cs:10-17 | after any sequence of Enqueues the queue holds exactly the `limit` most recent items, oldest first |
| Dispatch.FanOut | Log.cs:98-101 | a fan-out makes one call per registration |
| Dispatch.DumpFanOut | Log.cs:83-86 | a dump fan-out makes one call per crash-dump registration |
| Dispatch.FanOutInOrder | Log.cs:98-101 | the i-th call goes to the i-th registered listener, with the same arguments for every listener |
| Dispatch.FirstThrow | Log.cs:98-101 | the position of the first listener that throws: every listener before it returns normally, and the one at it throws (or the position is the end) |
| Dispatch.ReachedByThrowing | Log.cs:98-101 | every listener is reached exactly when none throws; otherwise the listeners reached end with the first one that throws |
| Dispatch.FanOutPrefix | Log.cs:98-101 | the calls made before a throw are the first calls of the full fan-out |
| Dispatch.DumpFanOutPrefix | Log.cs:83-86 | the dump calls made before a throw are the first calls of the full dump fan-out |
| Dispatch.ReachedIffRegistered | Log.cs:98-101 | a listener is called if and only if it is registered |
| Dispatch.DumpFanOutSharesSnapshot | Log.cs:81-86 | every crash dumper receives the identical snapshot, in registration order |
| Dispatch.RecordKeepsBound | Log.cs:96-97 | the history never exceeds 60 entries; when crash dumping is on the newest entry is the one just logged, and otherwise the history is unchanged |
| Dispatch.IndexOf | Log.cs:59-63 | the result is the position of the first occurrence, or -1 exactly when the item is absent |
| Dispatch.RemoveFirstTakesOneOccurrence | Log.cs:59-63 | Remove deletes exactly the first occurrence and keeps every other registration, duplicates included, in order; removing an absent item changes nothing |
| Dispatch.Log.constructor | Log.cs:26-30 | the history starts empty with capacity 60, crash dumping is on, and no listeners are registered |
| Dispatch.Log.SetDoCrashDump | Log.cs:23 | the setter records the flag |
| Dispatch.Log.RegisterSystemEventListener | Log.cs:54-58 | the listener is appended to the registrations |
| Dispatch.Log.RemoveSystemEventListener | Log.cs:59-63 | the first occurrence of the listener is removed |
| Dispatch.Log.RegisterCrashDumpListener | Log.cs:64-68 | the dumper is appended to the registrations |
| Dispatch.Log.RemoveCrashDumpListener | Log.cs:69-73 | the first occurrence of the dumper is removed |
| Dispatch.Log.LogCrashDump | Log.cs:75-90 | when crash dumping is on, the dumpers receive the same snapshot of the history in order, up to and including the first that throws, and the call throws exactly when one does; when it is off, nothing happens |
| Dispatch.Log.Dispatch | Log.cs:92-194 | the shared body of the log calls: the entry is recorded iff crash dumping is on, then the listeners are called in order up to and including the first that throws; the call throws exactly when a listener does |
| Dispatch.Log.Error | Log.cs:92-103 | records an Error entry with the message and calls LogError(message) on each listener in order, until one throws |
| Dispatch.Log.ErrorException | Log.cs:105-116 | records an Error entry with a null message and the exception, and calls LogError(ex) on each listener in order, until one throws |
| Dispatch.Log.ErrorWithException | Log.cs:118-129 | stores both message and exception; the listeners, until one throws, get `message + NewLine + ex` |
| Dispatch.Log.Warning | Log.cs:131-142 | records a Warning entry with the message and calls LogWarning(message) on each listener in order, until one throws |
| Dispatch.Log.WarningException | Log.cs:144-155 | records a Warning entry with a null message and the exception, and calls LogWarning(ex) on each listener in order, until one throws |
| Dispatch.Log.WarningWithException | Log.cs:157-168 | stores both message and exception; the listeners, until one throws, get `message + NewLine + ex` |
| Dispatch.Log.Info | Log.cs:170-181 | records an Info entry and calls LogInfo on each listener in order, until one throws |
| Dispatch.Log.Debug | Log.cs:183-194 | records a Debug entry and calls LogDebug on each listener in order, until one throws |
| Dispatch.Log.CurrentDomainUnhandledException | Log.cs:37-51 | a non-exception payload is ignored; otherwise, in order: log at Error, dump a history whose newest entry holds the exception, show the fatal message box, exit with the exception's HResult; a listener that throws ends the handler after the logging, a dumper that throws ends it after the dump, and neither the message box nor the exit happens |
| Colors.Rgb | Color.cs:5-10 | the three-argument constructor stores R, G and B and leaves alpha 0 |
| Colors.Rgba | Color.cs:12-18 | the four-argument constructor stores all four components |
| Colors.X2 | Color.cs:75 | a byte renders as two upper-case hex digits |
| Colors.X2RoundTrip | Color.cs:75 | the two hex digits read back as the original byte |
| Colors.ToHexadecimal | Color.cs:73-76 | the code is six characters: R, G, B as X2, in that order |
| Colors.ToHexadecimalRoundTrip | Color.cs:73-76 | parsing the six digits back yields R, G and B |
| Colors.ToHexadecimalIgnoresOnlyAlpha | Color.cs:73-76 | two colours have the same code if and only if they agree on R, G and B |
| Colors.LevelColours | Color.cs:55-71 | the level colours render as Debug 323232, Info 000000, Warning (Orange) FF7F00 and Error (Maroon) 800000 |
| Colors.ToString | Color.cs:78-81 | the rendering starts with "GSColor R:" |
| Colors.ToStringInjective | Color.cs:78-81 | two colours render the same if and only if they are equal: the four decimal components can be read back |
| Colors.ToStringExample | Color.cs:78-81 | Orange renders as "GSColor R:255 G:127 B:0 A:0" |
| Strings.PadRight | TextLogger.cs:98 | a left-aligned field starts with the text and is blank-filled to the width |
| Strings.Decimal | TextLogger.cs:190 | an int renders as decimal digits with no leading zero |
| Strings.DecimalRoundTrip | TextLogger.cs:190 | parsing the digits back gives the number |
| Strings.DecimalInjective | HTMLLogger.cs:228-235 | two numbers render the same if and only if they are equal |
| Strings.Utf8Length | TextLogger.cs:186-187 | a file's byte length lies between its character count and four times that count |
| Strings.Utf8LengthAppend | TextLogger.cs:186-187 | appending text adds its byte length to the file's length |
| Strings.ThreadMapAppend | HTMLLogger.cs:257-280 | rendering a + b renders a, then b from the counter that a left behind |
| Files.AppendGrowsLength | TextLogger.cs:186-187 | appending grows the file by the text's UTF-8 byte count, the size the rotation test reads; a new file holds exactly that many bytes |
| Files.Append | TextLogger.cs:195-208 | an appending writer creates the file if needed, appends the text and keeps the creation time; no other file changes |
| Files.Overwrite | HTMLLogger.cs:46 | a non-appending writer replaces the file's content with the text; no other file changes |
| Files.Matching | TextLogger.cs:70-71 | GetFiles(prefix + "*" + ext) lists exactly the files of the directory matching the pattern |
| Files.InsertByCreation | TextLogger.cs:74-75 | inserting into a listing adds exactly the one file |
| Files.InsertKeepsSorted | TextLogger.cs:74-75 | insertion keeps the listing in ascending creation time |
| Files.ListByCreation | TextLogger.cs:69-75 | the listing holds every matching file exactly once, in ascending creation time |
| Files.Doomed | TextLogger.cs:77-87 | the deletion loop removes count - 5 files, or none |
| Files.DeleteOldest | TextLogger.cs:77-81 | the loop deletes the first count - keep files of the listing and nothing else |
| Files.RetentionKeepsNewest | TextLogger.cs:73-87 | only matching files are deleted, min(keep, count) of them remain, and no deleted file is newer than a kept one |
| Files.PrefixNoNewer | TextLogger.cs:73-81 | in a creation-ordered listing no file before a position is newer than a file after it |
| Files.ListingIsDistinct | TextLogger.cs:70-71 | a directory listing holds each file once |
| Files.Cleanup | TextLogger.cs:64-94 | both listings are taken first, then all but the newest `keep` files of each are deleted |
| Files.CleanupBounds | TextLogger.cs:64-94 | after a cleanup pass nothing was added or changed, only matching files were deleted, and at most `keep` files match each pattern |
| DumpPlan.PlanByLevel | TextLogger.cs:221-241 | Debug and Info give the message line; Warning and Error give the message unless it is null or empty, then the exception unless it is null; Silent gives nothing; every line carries the entry's level |
| DumpPlan.PlanAllAppend | TextLogger.cs:219-242 | the lines of a + b are the lines of a followed by those of b |
| DumpPlan.PlanAllLevels | HTMLLogger.cs:257-280 | no dump line is Silent, and every line carries the level of some entry |
| TextSink.Tag | TextLogger.cs:112-176 | every level tag fits the 5-column field |
| TextSink.FormatStringLayout | TextLogger.cs:96-99 | the timestamp fills at least 20 columns (a longer one pushes the rest right) and the tag 5; the message starts in column w + 8, w being the wider of the timestamp and 20, and is followed only by the line break |
| TextSink.NewFilePath | TextLogger.cs:46-62 | a new file name starts with the prefix and ends with `.txt`; its directory is the given one, or the current one when that is empty |
| TextSink.RotatedNamesDiffer | TextLogger.cs:189-190 | rotated work files with different counters get different prefixes |
| TextSink.RenderItemsAppend | TextLogger.cs:219-242 | rendering a + b renders a, then b |
| TextSink.CrashDumpInOrder | TextLogger.cs:210-244 | a crash dump keeps the order of the snapshot |
| TextSink.SilentEntryIsSkipped | TextLogger.cs:221-241 | a Silent entry adds nothing to a crash dump |
| TextSink.RenderCrashDump | TextLogger.cs:213-243 | the dump is the header followed by every entry's lines |
| TextSink.RenderEntries | TextLogger.cs:219-242 | the loop appends every entry's lines, entry after entry |
| TextSink.RenderStep | TextLogger.cs:219-242 | each pass of the loop appends exactly the next entry's lines |
| TextSink.AppendEntry | TextLogger.cs:221-241 | one `switch (entry.Level)` appends exactly that entry's planned lines |
| TextSink.RenderPlan | TextLogger.cs:221-241 | the text each level renders to, including the null and empty message cases |
| TextSink.RotationProbeAsWritten | TextLogger.cs:186-187 | the size probe fails exactly when the work file does not exist, and otherwise reports whether it is over 1 MiB |
| TextSink.ProbeThrowsOnMissingFile | TextLogger.cs:186-187 | on a missing work file the probe as written throws, although RotationDue reports no rotation due |
| TextSink.FirstWriteFailureThrowsAsWritten | TextLogger.cs:39-62 | a new sink on a disk lacking its first work path, whose first write fails, is Silent and still has no work file, so the probe as written (TextLogger.cs:186-187) throws out of that first log call |
| TextSink.ProbeAgreesOnExistingFile | TextLogger.cs:186-187 | on an existing work file the probe as written and RotationDue agree |
| TextSink.TextLogger.constructor | TextLogger.cs:39-44 | cleanup runs first, then the first work path is named; the threshold starts at Info and a failed cleanup makes it Silent |
| TextSink.TextLogger.SetLogLevel | TextLogger.cs:32-36 | the setter records the threshold |
| TextSink.TextLogger.SetDuplicateToConsole | TextLogger.cs:25 | the setter records the flag |
| TextSink.TextLogger.SetCrashPrefix | TextLogger.cs:26 | the setter records the crash-file prefix |
| TextSink.TextLogger.SetLogPrefix | TextLogger.cs:15-24 | the current work file is deleted and a new work path under the new prefix is named |
| TextSink.TextLogger.Cleanup | TextLogger.cs:64-94 | the pass keeps the five newest files per prefix in the current directory; a failure leaves the disk alone and makes the sink Silent |
| TextSink.TextLogger.WriteToConsole | TextLogger.cs:100-104 | the line is mirrored exactly when DuplicateToConsole is set |
| TextSink.TextLogger.AppendToFile | TextLogger.cs:195-208 | a successful write appends the text; a failed write leaves the disk as it was and makes the sink Silent |
| TextSink.TextLogger.WriteToFile | TextLogger.cs:183-193 | append, then move to a new numbered work file once the file is over 1 MiB, then clean up |
| TextSink.TextLogger.Emit | TextLogger.cs:112-114 | the line is mirrored to the console, then written to the file |
| TextSink.TextLogger.LogDebug | TextLogger.cs:106-117 | below the threshold nothing changes; otherwise the DEBUG line is emitted |
| TextSink.TextLogger.LogInfo | TextLogger.cs:119-130 | below the threshold nothing changes; otherwise the INFO line is emitted |
| TextSink.TextLogger.LogWarningException | TextLogger.cs:132-143 | below the threshold nothing changes; otherwise a WARN line with ex.ToString() is emitted |
| TextSink.TextLogger.LogWarning | TextLogger.cs:145-156 | below the threshold nothing changes; otherwise the WARN line is emitted |
| TextSink.TextLogger.LogErrorException | TextLogger.cs:158-169 | below the threshold nothing changes; otherwise an ERROR line with ex.ToString() is emitted |
| TextSink.TextLogger.LogError | TextLogger.cs:170-181 | below the threshold nothing changes; otherwise the ERROR line is emitted |
| TextSink.TextLogger.FailedWriteSilencesForGood | TextLogger.cs:195-208 | a failed write leaves the sink Silent, and each of the six log calls after it leaves the sink exactly as the failed write left it |
| TextSink.TextLogger.LogCrashDump | TextLogger.cs:210-244 | the rendered dump is appended to a new crash file whatever the threshold; a failed write makes the sink Silent |
| HtmlSink.SpanType | HTMLLogger.cs:120-178 | every level other than Silent has a non-empty span class |
| HtmlSink.SpanClassesAreStyled | HTMLLogger.cs:51-57 | each level's span class has a style-sheet rule in that level's colour |
| HtmlSink.HeaderHasStyleSheet | HTMLLogger.cs:47-68 | the page header written into every new file contains the style sheet |
| HtmlSink.NewFilePath | HTMLLogger.cs:42-45 | a new file name starts with the prefix and ends with `.html`; its directory is the given one, or the current one when that is empty |
| HtmlSink.HtmlLogLineLayout | HTMLLogger.cs:203-214 | after the timestamp and colon padded to 30 columns, the span starts in column 34 and holds the message as given, unescaped |
| HtmlSink.CloseTargetDetermined | HTMLLogger.cs:226-237 | a block's text determines which block its Close link toggles |
| HtmlSink.CloseLinkMisdirected | HTMLLogger.cs:231-235 | as written, every Close link toggles a block other than its own |
| HtmlSink.CloseLinkTogglesOwnBlock | HTMLLogger.cs:226-237 | the corrected block's Close link toggles its own block and no other |
| HtmlSink.StackCountBound | HTMLLogger.cs:226 | an exception chain prints at most one block per exception, and a null trace still prints one |
| HtmlSink.RenderException | HTMLLogger.cs:215-251 | the counter advances once per stack-trace block in the chain |
| HtmlSink.BlockIdsConsecutive | HTMLLogger.cs:226-231 | the blocks of one chain, in the order they are written, take the ids id, id + 1, ..., one per block, so no two share an id, and the counter ends just past the last |
| HtmlSink.StackBlockOpens | HTMLLogger.cs:227-235 | a stack-trace block holds the `<div id="n" style=` tag that opens it, with its own id |
| HtmlSink.RenderedBlocksOpen | HTMLLogger.cs:215-251 | the rendered chain opens a block for every id from the starting counter up to, not including, the counter it leaves |
| HtmlSink.RenderItemsAppend | HTMLLogger.cs:257-280 | rendering a + b renders a, then b, numbering b's blocks from where a stopped |
| HtmlSink.RenderItemsIds | HTMLLogger.cs:226-231 | a dump advances the counter by exactly the number of blocks it prints |
| HtmlSink.RenderPlan | HTMLLogger.cs:259-279 | the text and counter each level renders to |
| HtmlSink.CrashDumpInOrder | HTMLLogger.cs:252-284 | a crash dump keeps the order of the snapshot, with block ids numbered on across entries |
| HtmlSink.RenderStep | HTMLLogger.cs:257-280 | each pass of the loop appends exactly the next entry's lines |
| HtmlSink.CleanupAsWrittenSparesHtml | HTMLLogger.cs:84-85 | as written, a cleanup pass never deletes an `.html` file of the sink's, so its files are never limited to five |
| HtmlSink.HtmlNotListedAsWritten | HTMLLogger.cs:84-85 | an `.html` file matches neither `HTMLog_*.txt` nor `Oops_*.txt` |
| HtmlSink.HtmlIsNotTxt | HTMLLogger.cs:43 | a name ending in `.html` does not end in `.txt` |
| HtmlSink.NewHtmlLogger | HTMLLogger.cs:30-77 | `new HtmlLogger(directory)`: a cleanup pass, then the work file is created holding the page header; the threshold starts at Info and either failure makes it Silent |
| HtmlSink.HtmlLogger.constructor | HTMLLogger.cs:30-35 | the constructor steps, given the header to write: cleanup, then the work file |
| HtmlSink.HtmlLogger.SetLogLevel | HTMLLogger.cs:20-24 | the setter records the threshold |
| HtmlSink.HtmlLogger.SetDuplicateToConsole | HTMLLogger.cs:26 | the setter records the flag |
| HtmlSink.HtmlLogger.CreateNewFile | HTMLLogger.cs:37-77 | the named file is created or truncated to hold the page header; a failure leaves the disk alone and makes the sink Silent |
| HtmlSink.HtmlLogger.Cleanup | HTMLLogger.cs:79-108 | the pass keeps the five newest `.html` files per prefix; a failure makes the sink Silent |
| HtmlSink.HtmlLogger.WriteToConsole | HTMLLogger.cs:109-113 | the text is mirrored exactly when DuplicateToConsole is set |
| HtmlSink.HtmlLogger.AppendToFile | HTMLLogger.cs:189-202 | a successful write appends the text; a failed write leaves the disk as it was and makes the sink Silent |
| HtmlSink.HtmlLogger.HtmlLogException | HTMLLogger.cs:215-251 | the built text and the new counter are those of RenderException from the old counter |
| HtmlSink.HtmlLogger.Emit | HTMLLogger.cs:184-187 | the line is appended to the work file, then the shown text is mirrored |
| HtmlSink.HtmlLogger.LogDebug | HTMLLogger.cs:114-124 | below the threshold nothing changes; otherwise the debug line goes to the file and the message to the console |
| HtmlSink.HtmlLogger.LogInfo | HTMLLogger.cs:126-136 | below the threshold nothing changes; otherwise the info line goes to the file and the message to the console |
| HtmlSink.HtmlLogger.LogWarningException | HTMLLogger.cs:138-148 | below the threshold nothing changes; otherwise the rendered chain goes to the file, ex.ToString() to the console, and the counter advances |
| HtmlSink.HtmlLogger.LogWarning | HTMLLogger.cs:149-159 | below the threshold nothing changes; otherwise the warning line goes to the file and the message to the console |
| HtmlSink.HtmlLogger.LogErrorException | HTMLLogger.cs:161-171 | below the threshold nothing changes; otherwise the rendered chain goes to the file, only ex.Message to the console, and the counter advances |
| HtmlSink.HtmlLogger.LogError | HTMLLogger.cs:172-182 | below the threshold nothing changes; otherwise the error line goes to the file and the message to the console |
| HtmlSink.HtmlLogger.EntryLines | HTMLLogger.cs:259-279 | one `switch (entry.Level)` produces exactly that entry's planned lines and advances the counter accordingly |
| HtmlSink.HtmlLogger.RenderEntries | HTMLLogger.cs:257-280 | the loop renders every entry's lines, entry after entry, with the counter threaded through |
| HtmlSink.HtmlLogger.FailedWriteSilencesForGood | HTMLLogger.cs:189-202 | a failed write leaves the disk as it was and the sink Silent, and each of the six log calls after it changes nothing |
| HtmlSink.HtmlLogger.LogCrashDump | HTMLLogger.cs:252-284 | a new crash file gets the header, then the dump line, every entry's lines and the closing tags, whatever the threshold; the dump is appended even after a failed creation; either failure makes the sink Silent |

## Left out

- Locking: every `lock` is left out; each operation is modelled as one atomic step.
- Real I/O: files are a map from path to content and creation time, and each write, creation or cleanup pass succeeds or fails as a whole, by a boolean parameter. A failure partway through a pass (some files already deleted) is not modelled.
- Failures of `Path.Combine` and of the clock inside `CreateNewFile` (the catch at TextLogger.cs:56-60) are not modelled. The path is always built.
- The `Log.Error(ex)` call in the sinks' catch blocks re-enters the dispatcher. The model leaves it out and records only the demotion to Silent.
- `Console.WriteLine(ex)` in the write catch blocks is not modelled. Console mirroring of log lines is modelled.
- The clock: one `DateTime.Now` reading per operation, used for every timestamp and file name of that operation. The source reads the clock several times.
- Culture-dependent formatting of dates and times is kept as opaque strings.
- `Environment.NewLine` is fixed to "\r\n", for the Windows desktop the library targets.
- `ex.ToString()`, `ex.GetType()` and `AppDomain.CurrentDomain.ToString()` are opaque strings carried by the model's values.
- `List.Sort` is not stable. The model's listing may put files created at the same instant in any order, and the retention lemmas hold for every such order.
- Directory names are compared exactly; the case-insensitive matching of Windows file patterns is not modelled.
- HtmlSink.HtmlLogger.constructor receives the page header as an argument, and `HtmlSink.NewHtmlLogger` passes `HtmlHeader()`. Together they are `new HtmlLogger(directory)`.
- HtmlSink.HtmlLogger.HtmlLogException: the source's `int` counter `_errorStackId` wraps past 2^31-1. The model's counter is unbounded, so the distinct ids of HtmlSink.BlockIdsConsecutive and HtmlSink.RenderedBlocksOpen hold only below that bound in the source.
- Strings.Utf8Length: file sizes count UTF-8 bytes for Unicode scalar values. Lone UTF-16 surrogates are not modelled.
- The `MessageBox` P/Invoke and `Environment.Exit` are recorded as trace events. Nothing happens after the exit event.
- `SubscribeToUnhadledExceptions` (Log.cs:32-35) only attaches the handler. The handler itself is modelled as Dispatch.Log.CurrentDomainUnhandledException.
- The GsColor colour constants other than the level colours are declared but have no lemmas.
- The `LogLevel` and `TimeStamp` getters are plain field reads and are not separate members.
- Dispatch.Log.Error, Dispatch.Log.ErrorException, Dispatch.Log.ErrorWithException, Dispatch.Log.Warning, Dispatch.Log.WarningException, Dispatch.Log.WarningWithException, Dispatch.Log.Info, Dispatch.Log.Debug: a null message or exception argument cannot be passed, since messages are strings and exceptions are values. In the source a null is stored in the entry as it is, `message + NewLine + ex` renders a null exception as empty text, and a Debug or Info entry with a null message dumps an empty message line. Only the null message of the exception-only overloads is modelled.
- TextSink.TextLogger.LogWarningException, TextSink.TextLogger.LogErrorException, HtmlSink.HtmlLogger.LogWarningException, HtmlSink.HtmlLogger.LogErrorException: a null exception cannot be passed. In the source such a call passes the threshold test and then throws NullReferenceException at `ex.ToString()` or `ex.GetType()`.
- TextSink.TextLogger.SetLogPrefix: `File.Delete` at TextLogger.cs:20 is outside any try block, so a failed delete throws out of the setter and leaves the prefix unchanged. The model's delete always succeeds. Deleting a missing file does nothing, as in .NET.
- Queues.FixedSizeQueue.Enqueue: requires a limit of at least 0. With a negative `Limit` the source's loop `while (Count > Limit)` would empty the queue and then call `Dequeue` on it, which throws InvalidOperationException. The dispatcher's queue has limit 60, and nothing in the library sets `Limit`.
- Files.Matching: Windows matches a three-character extension in a pattern such as `*.txt` against longer extensions too (`.txtx`). The model matches the extension exactly, so a cleanup pass never lists such files.

## Findings

| source | as written | input that shows it | evidently intended | confidence | as-written member | corrected member |
|---|---|---|---|---|---|---|
| HTMLLogger.cs:84-85 | Cleanup lists `HTMLog_*.txt` and `Oops_*.txt`, but the sink only creates `.html` files (line 43) | a directory holding six `HTMLog_*.html` files: the pass deletes none of them | keep the five newest `.html` files of each prefix | high, not executed | HtmlSink.CleanupAsWrittenSparesHtml | HtmlSink.HtmlLogger.Cleanup |
| TextLogger.cs:186-187 | `new FileInfo(_workFilePath).Length` is read outside any try block; CreateNewFile (lines 46-62) only names the file, so a failed first write leaves no file and the read throws FileNotFoundException out of the LogX call | the first LogInfo call on a new sink whose file write fails | treat a missing work file as not due for rotation, and go on to Cleanup | medium, not executed | TextSink.FirstWriteFailureThrowsAsWritten | TextSink.TextLogger.WriteToFile |
| HTMLLogger.cs:231-235 | the counter is incremented before the Close link is written, so the link of block n toggles block n+1 | an exception with a stack trace, rendered with counter 0: its block has id 0 and its Close link calls `displ('1')` | the Close link hides the block it sits in | high, not executed | HtmlSink.CloseLinkMisdirected | HtmlSink.CloseLinkTogglesOwnBlock |

The rest of the model uses the corrected behaviour:

- HtmlSink.HtmlLogger.Cleanup searches for `.html`.
- TextSink.TextLogger.WriteToFile asks `RotationDue`, which answers false for a missing file.
- HtmlSink.HtmlLogger.HtmlLogException writes `StackBlock`, whose Close link targets its own id.
