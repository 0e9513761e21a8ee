# crash-reporter core, modelled in Dafny

This project models three stateful parts of the crash reporter:

- **The daemon monitor** (`DaemonMonitor`, with `RichCore` and `Common`).
  It reacts when a watched core directory changes.
  For each new rich core it builds a signature: the binary name, the signal number, the size, and a size band of 95%–105% rounded down.
  When auto-delete is on, it looks the signature up in the history of handled cores.
  The first entry whose band admits the new core has its counter raised.
  Once that counter reaches the similarity threshold, the core is deleted.
  A core that is not deleted raises the `richCoreNotify` signal.
  It is then either shown through the crash-reporter UI over D-Bus, with a local notification as fallback, or passed to the auto-uploader together with every other known core.
- **The upload item** (`UploadItem`): one file queued for upload.
  It has five statuses, an error message and the HTTP client it currently uses.
  It emits `uploadFinished` when a transfer is over.
- **The pending-uploads list model** (`PendingUploads`): the list behind the settings UI's "pending uploads" view.
  `setData` reconciles the rows with a new list of core paths in place.
  It drops rows whose path is gone and consumes one matching path per kept row.
  It then inserts one row per remaining path, before the first strictly older row.

The three classes whose methods update their own fields are Dafny `class`es: `Monitor`, `UploadItem` and `PendingUploadsModel`.
Their methods update those fields.
A `CReporterHandledRichCore` has its counter raised in place through a pointer (src/daemon/creporterdaemonmonitor.cpp:238). Only the monitor's history list holds those pointers, so the history is a sequence of `HandledRichCore` values, and raising a counter replaces that entry.
Each method is proved against a pure specification function of the old state (`DuplicateCheck`, `DirectoryChanged`, `AfterCancel`, `SetDataResult`, …), and the promised properties are proved about those functions.

The outside world is handled in two ways:

- What a component does to the outside world is appended to a `trace` field.
  - For the daemon: file removal, the `richCoreNotify` signal, D-Bus requests and the fallback notification.
  - For the upload item: calls on its HTTP clients, `uploadFinished` and `done`.
- What the outside world answers is an input.
  - D-Bus replies, whether the dialog service is registered, and the registry's scan results.
  - File sizes and creation times.
  - Whether an HTTP client accepts a file, and the signals clients send back.
  - The file-name parser and `strsignal`.

The similarity threshold `CREPORTER_MAX_SIMILAR_RCORES` is defined outside the modelled files.
It is the `maxSimilar` parameter of `Monitor`'s constructor.

## Behaviour of the code worth knowing

- **Counting suppressed repeats.** `checkForDuplicates` deletes a core once the matching entry's raised counter satisfies `count >= CREPORTER_MAX_SIMILAR_RCORES` (src/daemon/creporterdaemonmonitor.cpp:242). Its comments call this the maximum being "exeeded" (lines 172-173 and 243), but the test is `>=`. So with a threshold of 3 the third similar core is already deleted, and five similar cores give the verdicts `[false, false, true, true, true]` (`DaemonMonitor.FiveSimilarCores`).
- **The first occurrence.** It is never suppressed, even with a threshold of 1 or less, because a new entry is appended without the threshold test (lines 253-255).
- **Cancel on a finished item.** `cancel` sets `Cancelled` from any status and asks an existing client to cancel (src/libs/httpclient/creporteruploaditem.cpp:126-131). It emits `uploadFinished` only when the item was `Waiting` (lines 133-137), so a cancel after an error emits nothing more but still changes the status and calls the client (`UploadItem.ErrorThenCancel`).
- **Terminal notifications.** A cancel before the start, a client error and a client's success each emit `uploadFinished` once (lines 136, 165 and 171). A client that refuses the file is the exception: `startUpload` then ends in `Error` and emits nothing (lines 111-117), and a later cancel emits nothing either, because the item is no longer `Waiting` (`UploadItem.RefusedStartIsSilent`). No more than one notification is guaranteed only under conditions on how the item is used, listed under "Left out" (`UploadItem.AtMostOneNotification`).
- **The band's rounding.** The lower bound is `(size * 95) / 100` in integer arithmetic (src/daemon/creporterdaemonmonitor.cpp:64), so it rounds down, and a 9-byte core matches a 10-byte entry (`RichCore.LowerBandRoundsDown`). `operator==` uses only the stored entry's band (lines 83-91), so the relation is neither symmetric nor transitive.
- **The fallback summary.** It keeps the literal `%1`, because the string returned by `arg` is discarded (lines 191-192).
- **The dialog reply's value.** A reply that is not an error counts as success whatever boolean it carries (lines 318-345).

## Model

| member | source | states |
|---|---|---|
| Common.ToInt | src/daemon/creporterdaemonmonitor.cpp:59-60 | QString::toInt in base 10: the result is a 32-bit int; white space around the number is skipped, and the result is non-zero only when the remaining text starts with a digit or a sign (a failed conversion gives 0) |
| Common.ToIntIgnoresSpaces | src/daemon/creporterdaemonmonitor.cpp:59-60 | surrounding the text with white space on either side does not change what toInt returns |
| Common.DecimalRoundTrip | src/daemon/creporterdaemonmonitor.cpp:59-60 | toInt reads back the decimal text of every 32-bit int, negative ones with a leading '-' |
| RichCore.NewHandledRichCore | src/daemon/creporterdaemonmonitor.cpp:52-67 | the name is parsed field 0 and the signal is toInt of field 2; the counter is 0; the lower and upper limits are 95% and 105% of the size rounded down; lower <= size <= upper, so a signature matches itself |
| RichCore.Matches | src/daemon/creporterdaemonmonitor.cpp:83-91 | operator==: equal names and signals, and the other core's size inside the stored entry's band; what this means in bytes is stated by MatchesBySize |
| RichCore.MatchesBySize | src/daemon/creporterdaemonmonitor.cpp:83-91 | a later core of size b is "the same crash" as a stored one of size a iff the names and signals are equal, 100·b <= 105·a and 100·b > 95·a − 100 |
| RichCore.MatchesIgnoresCount | src/daemon/creporterdaemonmonitor.cpp:83-91 | the repeat counters of both operands play no part in matching |
| RichCore.LowerBandRoundsDown | src/daemon/creporterdaemonmonitor.cpp:64-65 | the rounded-down lower limit admits a 9-byte core into a 10-byte entry's band, although 9 < 95% of 10 |
| RichCore.MatchesNotSymmetric | src/daemon/creporterdaemonmonitor.cpp:83-91 | only the stored operand's band is used: 95 matches a 100-byte entry, but 100 does not match a 95-byte entry |
| RichCore.MatchesNotTransitive | src/daemon/creporterdaemonmonitor.cpp:83-91 | 100 ~ 105 and 105 ~ 110, but not 100 ~ 110 |
| DaemonMonitor.FirstMatch | src/daemon/creporterdaemonmonitor.cpp:231-237 | the result is the index of a matching entry with no match before it, or None iff no entry matches |
| DaemonMonitor.DuplicateCheck | src/daemon/creporterdaemonmonitor.cpp:223-258 | on a match, only the first matching entry's counter rises by one; the length and every other entry are unchanged; suppress iff the new count >= the threshold. Without a match, the core is appended with count 1 and not suppressed. The history only grows, and no entry ever matches a later one |
| DaemonMonitor.Replay | src/daemon/creporterdaemonmonitor.cpp:223-258 | successive checkForDuplicates calls on one history: one verdict per core, in order |
| DaemonMonitor.ReplayGrows | src/daemon/creporterdaemonmonitor.cpp:231-257 | over any sequence of checks, entries are never removed, reordered or changed except that counters never drop; the no-later-match property is kept |
| DaemonMonitor.RepeatedCrash | src/daemon/creporterdaemonmonitor.cpp:238-257 | for a run of cores of one new crash, occurrence k (counting from 0) is suppressed iff k >= 1 and k+1 >= threshold; one entry is added, and its count equals the number of occurrences |
| DaemonMonitor.FiveSimilarCores | src/daemon/creporterdaemonmonitor.cpp:238-257 | sizes 1000, 1020, 980, 1010 and 990 with threshold 3 give the verdicts [false, false, true, true, true] |
| DaemonMonitor.UiNotified | src/daemon/creporterdaemonmonitor.cpp:318-345 | false iff the reply is an error, its name is not ...Spawn.ChildSignaled, and the dialog service is not registered; a successful reply is always true |
| DaemonMonitor.UiNotifyEffects | src/daemon/creporterdaemonmonitor.cpp:313-335 | one dialog request, followed by a registration query exactly when the error is anything but ChildSignaled |
| DaemonMonitor.UploaderNotified | src/daemon/creporterdaemonmonitor.cpp:357-375 | true iff the reply is not an error |
| DaemonMonitor.DirectoryChanged | src/daemon/creporterdaemonmonitor.cpp:157-218 | no effects and no history change unless the directory exists and a core was found; under auto-delete the history becomes that of checkForDuplicates, and otherwise it is unchanged; a suppressed core is only removed; any other new core raises richCoreNotify first and exactly once, and is never removed. In UI mode, next comes exactly one dialog request carrying the core's path, then the registration query when the error calls for it, and last the fallback notification iff the UI could not be reached, and nothing else: the list is exactly that, of length 2 plus one for the query plus one for the fallback. In auto-upload mode, next comes exactly one upload of all known cores |
| DaemonMonitor.Monitor.constructor | src/daemon/creporterdaemonmonitor.cpp:100-103 | auto-delete and auto-upload start off, with an empty history and nothing done |
| DaemonMonitor.Monitor.CheckForDuplicates | src/daemon/creporterdaemonmonitor.cpp:223-258 | the foreach scan leaves the history and verdict that DuplicateCheck describes |
| DaemonMonitor.Monitor.NotifyCrashReporterUI | src/daemon/creporterdaemonmonitor.cpp:305-346 | returns UiNotified of the replies and appends exactly UiNotifyEffects to the trace |
| DaemonMonitor.Monitor.NotifyAutoUploader | src/daemon/creporterdaemonmonitor.cpp:351-376 | appends one upload request for the given files; returns UploaderNotified of the reply |
| DaemonMonitor.Monitor.HandleDirectoryChanged | src/daemon/creporterdaemonmonitor.cpp:157-218 | the trace grows by, and the history becomes, what DirectoryChanged describes |
| DaemonMonitor.Monitor.AutoDeleteEnabled | src/daemon/creporterdaemonmonitor.cpp:381-384 | returns the auto-delete flag |
| DaemonMonitor.Monitor.SetAutoDelete | src/daemon/creporterdaemonmonitor.cpp:389-392 | sets the auto-delete flag |
| DaemonMonitor.Monitor.AutoUploadEnabled | src/daemon/creporterdaemonmonitor.cpp:397-400 | returns the auto-upload flag |
| DaemonMonitor.Monitor.SetAutoUpload | src/daemon/creporterdaemonmonitor.cpp:405-418 | sets the flag; turning auto-upload off sends exactly one quit request, turning it on sends none |
| UploadItem.StatusName | src/libs/httpclient/creporteruploaditem.cpp:34 | every status indexes the name table inside its first five entries, so no status reads "Unknown" |
| UploadItem.StatusNamesDistinct | src/libs/httpclient/creporteruploaditem.cpp:34 | distinct statuses have distinct names |
| UploadItem.FileName | src/libs/httpclient/creporteruploaditem.cpp:55-56 | QFileInfo::fileName, no longer than the path; FileNameIsLastComponent states which part of the path it is |
| UploadItem.FileNameIsLastComponent | src/libs/httpclient/creporteruploaditem.cpp:55-56 | the file name is the longest suffix of the path that contains no '/' |
| UploadItem.AfterStartUpload | src/libs/httpclient/creporteruploaditem.cpp:100-119 | a new client is created, wired, asked to open a session and to upload the path; Sending if it accepted, Error otherwise; a client exists afterwards either way; nothing is emitted |
| UploadItem.AfterCancel | src/libs/httpclient/creporteruploaditem.cpp:121-138 | the status becomes Cancelled from any status; the trace gains a cancel call on the current client iff one exists, followed by uploadFinished iff the item was Waiting, and nothing else; the error text and clients are unchanged |
| UploadItem.AfterUploadError | src/libs/httpclient/creporteruploaditem.cpp:148-166 | the message is stored; Error unless the item was Cancelled; the failing client is unwired; exactly one uploadFinished; no client call |
| UploadItem.AfterUploadFinished | src/libs/httpclient/creporteruploaditem.cpp:168-172 | Finished, and exactly one uploadFinished |
| UploadItem.Apply | src/libs/httpclient/creporteruploaditem.cpp:100-172 | one call or client signal: a signal from a client that is not wired to the item changes nothing; only a start creates and wires a client; a cancel always leaves Cancelled; at most one uploadFinished is emitted; the trace only grows |
| UploadItem.Run | src/libs/httpclient/creporteruploaditem.cpp:100-172 | any sequence of inputs: what was emitted stays in the trace, and without a start no client is created or wired |
| UploadItem.AtMostOneNotification | src/libs/httpclient/creporteruploaditem.cpp:100-172 | an item started at most once (as its first action), and whose clients send nothing after their own success, emits at most one uploadFinished over any sequence of cancels and client signals |
| UploadItem.RefusedStartIsSilent | src/libs/httpclient/creporteruploaditem.cpp:111-137 | a refused file followed by a cancel leaves the item Cancelled with no uploadFinished at all |
| UploadItem.CancelBeforeStart | src/libs/httpclient/creporteruploaditem.cpp:126-137 | cancelling a new item makes it Cancelled, emits uploadFinished once and makes no client call |
| UploadItem.ErrorSilencesClient | src/libs/httpclient/creporteruploaditem.cpp:155-158 | after uploadError, any further signals from that client change nothing |
| UploadItem.ErrorThenCancel | src/libs/httpclient/creporteruploaditem.cpp:121-166 | a transfer error gives Error, keeps the message and emits once; a later cancel emits nothing more but makes it Cancelled and calls cancel on the failed client: the trace gains exactly uploadFinished and then that cancel call |
| UploadItem.UploadItem.constructor | src/libs/httpclient/creporteruploaditem.cpp:47-61 | Waiting, no client, an empty error string and nothing emitted; the path, file name and size are fixed |
| UploadItem.UploadItem.Filesize | src/libs/httpclient/creporteruploaditem.cpp:69-72 | returns the size fixed at construction |
| UploadItem.UploadItem.Filename | src/libs/httpclient/creporteruploaditem.cpp:74-77 | returns the file name fixed at construction |
| UploadItem.UploadItem.MarkDone | src/libs/httpclient/creporteruploaditem.cpp:79-83 | emits done once and changes nothing else |
| UploadItem.UploadItem.Status | src/libs/httpclient/creporteruploaditem.cpp:85-88 | returns the status |
| UploadItem.UploadItem.StatusString | src/libs/httpclient/creporteruploaditem.cpp:90-93 | returns the status's name from the table |
| UploadItem.UploadItem.ErrorString | src/libs/httpclient/creporteruploaditem.cpp:95-98 | returns the stored message |
| UploadItem.UploadItem.StartUpload | src/libs/httpclient/creporteruploaditem.cpp:100-119 | moves the item to AfterStartUpload; returns true iff the client accepted the file |
| UploadItem.UploadItem.Cancel | src/libs/httpclient/creporteruploaditem.cpp:121-138 | moves the item to AfterCancel |
| UploadItem.UploadItem.SetStatus | src/libs/httpclient/creporteruploaditem.cpp:140-146 | sets the status and nothing else |
| UploadItem.UploadItem.UploadError | src/libs/httpclient/creporteruploaditem.cpp:148-166 | moves the item to AfterUploadError; the file argument is ignored |
| UploadItem.UploadItem.EmitUploadFinished | src/libs/httpclient/creporteruploaditem.cpp:168-172 | moves the item to AfterUploadFinished |
| UploadItem.UploadItem.SetErrorString | src/libs/httpclient/creporteruploaditem.cpp:174-178 | sets the error string and nothing else |
| UploadItem.UploadItem.HttpClientFinished | src/libs/httpclient/creporteruploaditem.cpp:105-106 | a client's finished signal runs emitUploadFinished only while that client is wired to the item |
| UploadItem.UploadItem.HttpClientError | src/libs/httpclient/creporteruploaditem.cpp:107-108 | a client's error signal runs uploadError only while that client is wired to the item |
| PendingUploads.ItemData | src/sailfishui/plugin/pendinguploadsmodel.cpp:69-82 | each of the five roles selects its own field of the row; any other role gives an invalid value |
| PendingUploads.RoleNameTable | src/sailfishui/plugin/pendinguploadsmodel.cpp:85-95 | exactly the five roles have names, and no two roles share one |
| PendingUploads.NamedRolesAreAnswered | src/sailfishui/plugin/pendinguploadsmodel.cpp:69-95 | a role has a name iff rows answer it with a value |
| PendingUploads.IndexOf | src/sailfishui/plugin/pendinguploadsmodel.cpp:104 | -1 iff the path is absent, otherwise the position of its first occurrence |
| PendingUploads.RemoveAt | src/sailfishui/plugin/pendinguploadsmodel.cpp:107-111 | removes exactly one element: the one at the given position |
| PendingUploads.RemoveAtKeepsOrder | src/sailfishui/plugin/pendinguploadsmodel.cpp:107-111 | the elements before the position stay where they were, and the ones after it move up by one in their order |
| PendingUploads.KeepMatched | src/sailfishui/plugin/pendinguploadsmodel.cpp:103-113 | the removal loop: each kept row consumes one input path, so the kept rows and the unconsumed paths are as many as the input paths; the lemmas below state which rows and paths |
| PendingUploads.KeepMatchedPaths | src/sailfishui/plugin/pendinguploadsmodel.cpp:103-113 | each kept row consumes exactly one occurrence of its path: the kept rows' paths plus the unconsumed paths are the input, multiplicities included |
| PendingUploads.KeepMatchedOrder | src/sailfishui/plugin/pendinguploadsmodel.cpp:103-113 | the kept rows are a subsequence of the old rows, so removal never reorders them |
| PendingUploads.UnconsumedPathKeepsAllRows | src/sailfishui/plugin/pendinguploadsmodel.cpp:103-113 | a path left unconsumed by the removal pass had no row of it dropped: every row of that path is kept, even when rows share paths |
| PendingUploads.KeepMatchedDistinct | src/sailfishui/plugin/pendinguploadsmodel.cpp:103-113 | with distinct row paths, a row is kept iff its path occurs in the input |
| PendingUploads.SubsequenceNewestFirst | src/sailfishui/plugin/pendinguploadsmodel.cpp:103-113 | dropping rows from a newest-first list keeps it newest first |
| PendingUploads.NewItem | src/sailfishui/plugin/pendinguploadsmodel.cpp:121-128 | a new row carries its own path and that file's creation time |
| PendingUploads.InsertPosition | src/sailfishui/plugin/pendinguploadsmodel.cpp:130-135 | the position of the first row strictly older than the new one, or the end: every row before it is no older |
| PendingUploads.InsertByDate | src/sailfishui/plugin/pendinguploadsmodel.cpp:130-138 | adds exactly that row and its path, one longer, and keeps a newest-first list newest first |
| PendingUploads.InsertByDateRemovable | src/sailfishui/plugin/pendinguploadsmodel.cpp:136-138 | the new row sits at InsertPosition, and taking it out gives back the old rows in their order |
| PendingUploads.InsertAll | src/sailfishui/plugin/pendinguploadsmodel.cpp:119-139 | every remaining path gets exactly one new row: the paths add up as multisets; newest first is kept |
| PendingUploads.InsertAllRows | src/sailfishui/plugin/pendinguploadsmodel.cpp:119-139 | the rows after insertion are exactly the old rows plus one new row built for each remaining path |
| PendingUploads.SetDataResult | src/sailfishui/plugin/pendinguploadsmodel.cpp:97-140 | the rows' paths are exactly the input paths, multiplicities included, one row per input path; every row is an old row unchanged or a new row built from its path; with no unconsumed path the result is a subsequence of the old rows; newest first is kept |
| PendingUploads.SamePathsAsInput | src/sailfishui/plugin/pendinguploadsmodel.cpp:97-140 | the set of row paths equals the set of input paths, and there is one row per input entry |
| PendingUploads.PendingUploadsModel.constructor | src/sailfishui/plugin/pendinguploadsmodel.cpp:43-46 | a new model has no rows |
| PendingUploads.PendingUploadsModel.RowCount | src/sailfishui/plugin/pendinguploadsmodel.cpp:52-59 | the number of rows |
| PendingUploads.PendingUploadsModel.Data | src/sailfishui/plugin/pendinguploadsmodel.cpp:61-83 | for an existing row, the field the role selects (ItemData) |
| PendingUploads.PendingUploadsModel.RoleNames | src/sailfishui/plugin/pendinguploadsmodel.cpp:85-95 | the five role names |
| PendingUploads.PendingUploadsModel.SetData | src/sailfishui/plugin/pendinguploadsmodel.cpp:97-140 | the rows become SetDataResult of the old rows and the input |
| PendingUploads.PendingUploadsModel.RemoveVanished | src/sailfishui/plugin/pendinguploadsmodel.cpp:101-113 | the in-place removeAt(i--) loop leaves the kept rows and returns the unconsumed paths |
| PendingUploads.PendingUploadsModel.InsertRows | src/sailfishui/plugin/pendinguploadsmodel.cpp:119-139 | the insertion loop leaves InsertAll of the rows and the paths |
| PendingUploads.PendingUploadsModel.InsertionRow | src/sailfishui/plugin/pendinguploadsmodel.cpp:130-135 | the linear search returns InsertPosition |

## Left out

- D-Bus proxies and blocking calls (`waitForFinished`), and the session bus. They are Effects in the trace, and their replies are inputs.
- Directory watching: `addDirectoryWatcher`, `removeDirectoryWatcher`, and the monitor's own constructor and destructor that call them. This is Qt signal wiring.
- The core registry (`checkDirectoryForCores`, `collectAllCoreFiles`, `refreshRegistry`). Its answers are fields of `Environment`. Its code is not part of this model.
- The fallback notification object's ownership, its signals and its deletion in `handleNotificationEvent`. Showing it is a single Effect.
- `CReporterUtils` (the file-name parser, `removeFile`). In the daemon, what the parser returns for the new core is an input, the field `Environment.coreInfo`. In the list model, the parser is the function `Collaborators.parse`. File removal is an Effect. The utilities' code is not part of this model.
- The HTTP client's internals and progress forwarding (`updateProgress`). Acceptance and the client's finished and error signals are inputs.
- `strsignal`, `QFileInfo::size`, `QFileInfo::created` and `QDateTime`. They are function parameters or inputs, and dates are ordered integers. Invalid dates are not modelled.
- The view notifications of the list model (`beginRemoveRows`/`endRemoveRows`, `beginInsertRows`/`endInsertRows`). They carry no state of the model.
- The notification dialog plugin and the auto-uploader's start-up code: UI layout and process start-up.
- Logging (`qDebug`, `qCDebug`, `qWarning`).
- Memory management: `delete` of rejected signatures and of the history at shutdown, and the HTTP clients, which are children of the item and are destroyed with it (an older client stays alive and wired until then, as the model keeps it in `connected`).
- RichCore.NewHandledRichCore: sizes are unbounded `nat`. The 64-bit overflow of `size * 105` for files beyond 2^63/105 bytes is not modelled.
- PendingUploads.PendingUploadsModel.Data: the row must also be non-negative. `PendingUploadsModel::data` only checks the upper bound with `Q_ASSERT`, and a negative row is out of range for `QList::at`.
- PendingUploads.PendingUploadsModel.SetData: the removal and insertion loops are the helper methods `RemoveVanished` and `InsertRows`, called in the order `PendingUploadsModel::setData` runs the two loops. The early return on an empty remainder stays in `SetData`.
- Common.ToInt: only white space below U+0100 is skipped; the other Unicode space separators that QChar::isSpace also accepts are not modelled.
- UploadItem.AtMostOneNotification: assumes an item started at most once, as its first action, and that no client sends a signal after its own `finished` (a second `finished` or an `uploadError` from a still-wired client would emit a second `uploadFinished`). Signals from other clients stay allowed. Started again later, the older client is still wired and can emit a second `uploadFinished`. The starting of items is done by the upload engine, which is outside this model.
