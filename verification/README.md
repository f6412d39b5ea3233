# FileZilla: verified models of the engine's bookkeeping

A Dafny model of the parts of FileZilla that keep books: which locks are held, which command is under way, which
directory is next, which bytes belong to which line, what is cached, and how paths and commands are written down.
Sockets, clocks and the user interface are replaced by arbitrary replies, speeds and interleavings, so that the
theorems hold for all of them.

Each component comes in two layers. Functions on values say what an operation does to the state, and lemmas prove
what holds over whole runs of them. Where the source changes state in place, a class with the same fields and loops
is proved against these functions.

| module | component |
|---|---|
| ServerPaths | the value of a remote path, being below, and the order |
| OpLocks | operation locks shared by control sockets |
| ListingLines, ListingParser | cutting a chunked listing into lines |
| RemoteRecursion, RecursiveWalk, PostOrder, RecursionBounds, RecursionReplies, TruthfulTree, TruthfulTransfer, RecursiveOperation | recursive remote operations |
| ReplyCodes, ControlSocketStack, EngineLifecycle, EngineObject | commands, retries and completion |
| TransferStatus, ActivityLogger | progress counters shared by threads |
| DirectoryListing | a listing and its lazily filled name maps |
| CacheState, CachePruning, CacheView, CacheStore, CacheEdits, CacheContents, CacheRuns, CacheWrites, CacheOrder, CacheTimes, DirectoryCache | the directory cache |
| SafePath, PathFormats, PathChanges, PathFiles | the textual forms of remote paths, how texts change them, and file names at their ends |
| LocalPath | canonical local paths |
| ChunkPlanner | the sizes of upload chunks |
| Quoting | command lines |

`dafny verify dfyconfig.toml` verifies everything.

## Where the code does less than one might expect

- A command event handled while a retry is pending forgets the failures so far, or connects at once and leaves the
  timer set; either way the retries still pending then make more sockets than the reconnect count allows
  (`EngineLifecycle.OvertakingExceedsTheBound`, with a run in `EngineLifecycle.OvertakingHappens`). The bound holds
  exactly while this does not happen (`EngineLifecycle.StepKeeps`). Such an event is left over when a command ends
  before its own event is handled, by a cancel event meant for an earlier command or by a report of the socket.
- A Disconnect that closes the connection is answered with an error and the bit for a lost connection, because closing
  the socket reports first; the code that would make this an OK comes after (src/engine/engineprivate.cpp:690-692,
  `EngineLifecycle.DisconnectIsAnsweredByClosing`).
- Two empty paths of different server types differ, as do two paths with different text behind a NUL, but the order of
  paths cannot tell them apart. Storing a listing for one while the other is cached stores nothing and counts its files
  (`CacheStore.StoreKeepsInv`, `CacheRuns.MiscountHappens`). No caller stores an empty path: FTP and SFTP store under
  the current directory, after a reply from which it was parsed (src/engine/ftp/list.cpp:201, 275, 323, 344,
  src/engine/sftp/list.cpp:85-86, src/engine/controlsocket.cpp:345-362), and Storj replaces an empty path by the root
  (src/engine/storj/list.cpp:18-24).  Of directories whose paths differ only behind a NUL a recursive operation visits
  one (`RecursionBounds.EveryRunIsConfined`, `TruthfulTree.NamesMakePathsDistinct`).
- The second loop of `InvalidateFile` compares with the directory, not with the child it has computed
  (src/engine/directorycache.cpp:300-312), so it marks siblings of the child too: exactly the listings below the
  directory (`CacheRuns.InvalidateFileView`, `CacheRuns.SiblingIsMarked`).
- Renaming a file in place and changing an owner leave the time of the last change as it was, so that `GetChangeTime`
  does not tell them (`CacheTimes.PutKeepsTimes`).
- On MVS a whole data set cannot be changed, not even by an absolute path; on VMS an absolute path without a device
  keeps the old one (`PathChanges.AbsoluteForgets`).
- Waiting locks are obtained without comparing servers (src/engine/oplock_manager.cpp:171-193), while taking a lock
  compares them: a lock on another server can keep one waiting, and does exactly if it clashes
  (`OpLocks.WaitingLockObtainedIff`, `OpLocks.WaitsForOtherServer`).
- After announcing a failed listing the recursive operation waits for the failure itself; if that never comes, neither
  does the end (`RecursionBounds.AnnouncementsAreIgnored`, `RecursionBounds.EveryRunEnds`).
- The safe form of a path loses an empty prefix, or cannot be read if segments follow one (`SafePath.ReadsPath`).
- Splitting a file name off a remote path can succeed without a name (`PathFiles.EmptyNameIff`,
  `PathFiles.EmptyMemberIsSplitOff`), and on MVS can leave a path that does not survive printing: exactly for a member
  of a data set whose own name ends in a parenthesis (`PathFiles.PathLeftSurvivesIff`, `PathFiles.MemberIsSplitOff`).
- An argument without blanks and quotes is not quoted for a line break in it and then falls apart
  (`Quoting.QuoteRoundTrip`).
- Clearing the name maps does nothing while there is no case-sensitive one, so a map of folded names alone would go
  stale (`DirectoryListing.RenameIsSafeIff`); the cache never makes one alone.

## Model

| member | source | states |
|---|---|---|
| OpLocks.LockFrame | src/engine/oplock_manager.cpp:60-98 | a lock call adds one live slot at an address that was free and changes nothing at any other address |
| OpLocks.UnlockFrame | src/engine/oplock_manager.cpp:100-139 | unlocking frees exactly its own address, and the compaction moves no other lock |
| OpLocks.UnlockKeepsWellFormed | src/engine/oplock_manager.cpp:108-139 | after the compaction no socket ends in a released slot and the table does not end in a hole |
| OpLocks.ObtainFrame | src/engine/oplock_manager.cpp:153-193 | obtaining turns exactly the socket's waiting locks that nothing held blocks any more into held ones |
| OpLocks.LockKeepsInv | src/engine/oplock_manager.cpp:60-98 | a lock call keeps well-formedness, mutual exclusion and "no wakeup is lost" |
| OpLocks.UnlockKeepsInv | src/engine/oplock_manager.cpp:100-151 | so does unlocking, because every socket with a waiting lock is sent an event |
| OpLocks.DeliverKeepsInv | src/engine/oplock_manager.cpp:153-193 | so does delivering an event, although the delivered event is gone |
| OpLocks.WokenCounts | src/engine/oplock_manager.cpp:141-151 | a wakeup sends one event to each socket with a waiting lock and none to any other |
| OpLocks.StepKeepsWorldInv | src/engine/oplock_manager.cpp:60-193 | one step: the address handed out was unowned, and a handle that is released addresses a live slot |
| OpLocks.RunsKeepWorldInv | src/engine/oplock_manager.cpp:15-236 | every reachable table is well formed and mutually exclusive, handles are exactly the live slots, and every waiting lock is blocked or has an event under way |
| OpLocks.QuietMeansNoWaiter | src/engine/oplock_manager.cpp:100-193 | with nothing held and no event under way, nothing waits |
| OpLocks.DeliveryObtainsIff | src/engine/oplock_manager.cpp:171-193 | over every run, delivering the event obtains a waiting lock exactly if no held lock of another socket, on any server, clashes; if none does, the event is under way |
| OpLocks.WaitsForOtherServer | src/engine/oplock_manager.cpp:171-193 | a run after which a lock waits although nothing is held on its own server, because obtaining does not compare servers |
| OpLocks.WaiterIsServed | src/engine/oplock_manager.cpp:141-193 | with nothing held, a waiting lock has an event under way whose delivery obtains it |
| OpLocks.HeldLocksAreApart | src/engine/oplock_manager.cpp:72-96 | over every run two locks held by different sockets for the same server and reason have different paths, and if one is inclusive the other does not lie below it, in terms of the segments of the paths |
| OpLocks.NewLockWaitsIff | src/engine/oplock_manager.cpp:60-98 | over every run a new lock waits exactly if another socket holds a lock for the server and reason with the same path, or one below it or above it while the upper one is inclusive |
| OpLocks.WaitingLockObtainedIff | src/engine/oplock_manager.cpp:171-193 | in the same terms, on any server: when delivering the event obtains a waiting lock |
| OpLocks.GoesOnIff | src/engine/controlsocket.cpp:660-665 | a socket is told to go on exactly if one of its locks waits no more |
| OpLocks.OpLock.Release | src/engine/oplock_manager.cpp:15-21 | destroying a handle unlocks its slot and leaves the handle empty |
| OpLocks.OpLock.MoveFrom | src/engine/oplock_manager.cpp:23-49 | moving releases what the target held, with whatever manager, hands the address over, and empties the source |
| OpLocks.OpLockManager.GetOrCreate | src/engine/oplock_manager.cpp:195-209 | finds the socket's entry or appends one |
| OpLocks.OpLockManager.IsBlocked | src/engine/oplock_manager.cpp:72-96 | the nested search answers whether a held lock of another socket clashes |
| OpLocks.OpLockManager.Lock | src/engine/oplock_manager.cpp:60-98 | the new table is the specified one, and the handle owns the new slot |
| OpLocks.OpLockManager.Unlock | src/engine/oplock_manager.cpp:100-139 | the new table and events are the specified ones |
| OpLocks.OpLockManager.PopReleased | src/engine/oplock_manager.cpp:118-124 | drops exactly the released slots at the end |
| OpLocks.OpLockManager.PopHoles | src/engine/oplock_manager.cpp:126-133 | drops exactly the holes at the end |
| OpLocks.OpLockManager.Wakeup | src/engine/oplock_manager.cpp:141-151 | the loop sends the specified events |
| OpLocks.OpLockManager.ObtainWaiting | src/engine/oplock_manager.cpp:153-169 | the loops give the specified table, and report whether anything was obtained |
| OpLocks.OpLockManager.OnObtainLock | src/engine/controlsocket.cpp:660-665 | delivering an event obtains, and sends the next command exactly if something was obtained |
| ListingLines.ScanContinues | src/engine/directorylistingparser.cpp:2148-2280 | scanning what is there and then the rest with more data gives the lines of scanning it all at once |
| ListingLines.FinalScanIsLines | src/engine/directorylistingparser.cpp:2148-2280 | a scan to the end gives exactly the reference lines, and fails exactly if one is too long |
| ListingLines.LinesCutTheStream | src/engine/directorylistingparser.cpp:2148-2280 | the lines and the gaps between them make up the stream: gaps are blanks, behind a line they begin with a line break, lines hold none and do not begin with blanks |
| ListingParser.ListingParser.TrimBlanks | src/engine/directorylistingparser.cpp:2160-2190 | skips blanks and breaks across buffers, dropping used-up buffers |
| ListingParser.ListingParser.FindBreak | src/engine/directorylistingparser.cpp:2195-2222 | finds the first break across buffers and the length up to it |
| ListingParser.ListingParser.CopyLine | src/engine/directorylistingparser.cpp:2224-2254 | copies that many bytes out of the buffers |
| ListingParser.ListingParser.GetLine | src/engine/directorylistingparser.cpp:2148-2280 | takes exactly the next line off the buffered bytes, with the buffers it has emptied, or says why there is none |
| ListingParser.ListingParser.ParseData | src/engine/directorylistingparser.cpp:699-735 | feeds every line that is finished, alone and joined to the previous one, to the line parser |
| ListingParser.ListingParser.AddData | src/engine/directorylistingparser.cpp:2119-2131 | adds a buffer and parses once enough has come |
| ListingParser.ListingParser.Parse | src/engine/directorylistingparser.cpp:737-764 | parses all that is left |
| ListingParser.ParseStream | src/engine/directorylistingparser.cpp:699-764 | chunk invariance: however the bytes are cut, parsing fails exactly if some line of the whole is over 10000 bytes, and otherwise has offered the lines of the whole to the line parser, alone and joined as said, and nothing else |
| ListingParser.FeedingTries | src/engine/directorylistingparser.cpp:699-735 | for every line parser: each line is offered alone, in order; right after one that is refused, and only if the line before it was recognised neither alone nor joined, that line, a space and this one are offered |
| ListingParser.RecordedTries | src/engine/directorylistingparser.cpp:699-735 | so a line parser that records its calls records exactly these |
| RemoteRecursion.NextOperationWaits | src/commonui/remote_recursive_operation.cpp:83-111 | afterwards the operation is over or waits for the listing of a directory that is not a delete marker |
| RemoteRecursion.HandleWaits | src/commonui/remote_recursive_operation.cpp:220-379 | every reply leaves the operation over or waiting |
| RecursiveWalk.RunRefinesWalkAll | src/commonui/remote_recursive_operation.cpp:83-282 | what lies on top of the stack behaves as a recursive walk that does not look below it |
| RecursiveWalk.StackRefinesRecursion | src/commonui/remote_recursive_operation.cpp:83-379 | for every sequence of replies the stack machine does what the recursive walk does, which removes a directory after the walk through its contents |
| TruthfulTree.WalkTellsTheTree | src/commonui/remote_recursive_operation.cpp:143-282 | on true listings the walk does exactly the deletion of the tree and visits exactly its directories |
| TruthfulTree.NamesMakePathsDistinct | src/commonui/remote_recursive_operation.cpp:143-218 | if no directory holds two directories whose names agree up to a NUL, no path comes up twice |
| TruthfulTree.DeletesTheTree | src/commonui/remote_recursive_operation.cpp:83-340 | deleting a tree that is listed truthfully asks for each directory once, deletes its files, removes it after all in it, and finishes, whatever comes later |
| TruthfulTransfer.GoesThroughTheTree | src/commonui/remote_recursive_operation.cpp:83-282 | on true listings every other operation asks for each directory no filter takes out once, says for each entry what the mode calls for, and finishes |
| TruthfulTransfer.TransferBringsTheTree | src/commonui/remote_recursive_operation.cpp:143-282 | a transfer hands over each file exactly once, with its name, path and size and the local directory that the sanitised names on the way lead to, or the first one if flattened, and exactly the empty directories |
| RecursionReplies.FailureIsRetried | src/commonui/remote_recursive_operation.cpp:298-340 | after a first failure that is not critical the same directory is asked for again and nothing else changes |
| RecursionReplies.FailureIsFinal | src/commonui/remote_recursive_operation.cpp:298-340 | after a second or a critical one the directory is given up: noted by a listing, removed by a deletion |
| RecursionReplies.LinkIsFile | src/commonui/remote_recursive_operation.cpp:342-379 | a link that is no directory is deleted as a file or handed over with the local directory it is in |
| RecursionReplies.RestrictedIsFiltered | src/commonui/remote_recursive_operation.cpp:143-218 | a start restricted to a name is processed as if a filter let only that name pass |
| RecursionReplies.LinkTargetIsStart | src/commonui/remote_recursive_operation.cpp:113-141 | what is found where a link of the user leads is gone through exactly if it comes from below the target |
| PostOrder.WalkIsForest | src/commonui/remote_recursive_operation.cpp:83-379 | the outputs of the walk are those of a forest of visits |
| PostOrder.ForestIsGrown | src/commonui/remote_recursive_operation.cpp:143-282 | in it every visit starts by asking for its directory, what is inside are children found in its listing, and only a directory due for deletion is removed, at the end |
| PostOrder.TreesAreAskedFor | src/commonui/remote_recursive_operation.cpp:83-111 | at no point was a directory removed more often than asked for |
| PostOrder.ForestIsDone | src/commonui/remote_recursive_operation.cpp:83-282 | once a directory is done with, nothing that comes later was found in it |
| PostOrder.EveryRunIsInPostOrder | src/commonui/remote_recursive_operation.cpp:83-379 | all this for the stack machine, under any replies whatever |
| RecursionBounds.HandleMakesSmaller | src/commonui/remote_recursive_operation.cpp:220-379 | a failed listing changes nothing until the failure follows; every other reply ends the operation or makes the measure smaller: roots, unvisited paths, weight of the stack |
| RecursionBounds.EveryRunEnds | src/commonui/remote_recursive_operation.cpp:83-379 | whatever the replies, if listings name paths of a finite set and not only failed listings are announced for ever, the operation ends |
| RecursionBounds.AnnouncementsAreIgnored | src/commonui/remote_recursive_operation.cpp:227-234 | announced failed listings alone never change anything |
| RecursionBounds.EveryRunIsConfined | src/commonui/remote_recursive_operation.cpp:113-141 | whatever the replies, every processed directory is below a start, a permitted start itself, or at or below a link target the user gave, and none is processed twice for one root, nor two that the ordered set cannot tell apart |
| RecursiveOperation.RemoteRecursiveOperation.AddRecursionRoot | src/commonui/remote_recursive_operation.cpp:45-50 | only roots with something to visit are taken |
| RecursiveOperation.RemoteRecursiveOperation.StartRecursiveOperation | src/commonui/remote_recursive_operation.cpp:52-75 | starts the specified run, unless busy or without roots |
| RecursiveOperation.RemoteRecursiveOperation.NextOperation | src/commonui/remote_recursive_operation.cpp:83-111 | the loop gives the specified state |
| RecursiveOperation.RemoteRecursiveOperation.ProcessEntries | src/commonui/remote_recursive_operation.cpp:143-218 | the loop over the entries gives the specified children and outputs |
| RecursiveOperation.RemoteRecursiveOperation.BelowRecursionRoot | src/commonui/remote_recursive_operation.cpp:113-141 | says whether a listing belongs to the operation, and marks a link target as a start |
| RecursiveOperation.RemoteRecursiveOperation.ProcessDirectoryListing | src/commonui/remote_recursive_operation.cpp:220-282 | the new state is the specified one for the reply |
| RecursiveOperation.RemoteRecursiveOperation.ListingFailed | src/commonui/remote_recursive_operation.cpp:298-340 | one retry unless critical, then the directory is dropped or removed |
| RecursiveOperation.RemoteRecursiveOperation.HandleLinkIsNotDir | src/commonui/remote_recursive_operation.cpp:342-379 | a link that is a file is treated as one |
| ControlSocketStack.ReportedOnceWhenDone | src/engine/controlsocket.cpp:127-237 | resetting an operation reports to the engine exactly if the stack is empty afterwards, and then once, whatever the operations answer |
| ControlSocketStack.SendReportsOnce | src/engine/controlsocket.cpp:583-658 | so does sending the next command |
| ControlSocketStack.ResetUnwindsEverything | src/engine/controlsocket.cpp:127-160 | a reset goes all the way down without asking any operation to go on exactly if no operation makes a plain result of the code |
| ControlSocketStack.ResultIsTold | src/engine/controlsocket.cpp:127-160 | if one does, the operation below the first such one is told the result, or asked to go on if that one was top-level, and nobody is asked before |
| ControlSocketStack.AnswerToResult | src/engine/controlsocket.cpp:632-658 | what follows from the answer of an operation that was told a result |
| ControlSocketStack.AnswerToSend | src/engine/controlsocket.cpp:583-630 | what follows from the answer of an operation that was asked to go on, bit by bit |
| ControlSocketStack.ResetTellsPlainly | src/engine/controlsocket.cpp:143-155 | whatever happens, only plain results are told |
| ControlSocketStack.CloseUnwindsEverything | src/engine/controlsocket.cpp:247-252 | closing pops every operation, asks none, and reports exactly once that the connection is lost, unless an operation takes that back |
| ControlSocketStack.ResetsStayDisconnected | src/engine/sftp/connect.cpp:192-201 | the resets of the operations, also the one that changes the code, do not |
| EngineLifecycle.ResetKeeps | src/engine/engineprivate.cpp:242-293 | a reset answers the command or leaves a retry pending, and changes nothing if one is pending already |
| EngineLifecycle.FirstReportCounts | src/engine/engineprivate.cpp:242-293 | of all that a socket reports only the first report has any effect |
| EngineLifecycle.DestroyingIsSilent | src/engine/controlsocket.cpp:45-58 | destroying a socket re-enters the engine without effect once the command is answered or to be retried |
| EngineLifecycle.FinishKeeps | src/engine/engineprivate.cpp:691-704 | whatever a handler answers, the command is answered or the timer or the socket is left to do it |
| EngineLifecycle.CommandEventKeeps | src/engine/engineprivate.cpp:630-706 | a command event keeps exactly-once completion; it keeps the bound on sockets exactly if it does not overtake a pending retry |
| EngineLifecycle.TimerKeeps | src/engine/engineprivate.cpp:492-514 | the retry timer keeps both |
| EngineLifecycle.CancelKeeps | src/engine/engineprivate.cpp:708-736 | cancelling keeps both |
| EngineLifecycle.StepKeeps | src/engine/engineprivate.cpp:602-614 | so does every step, with the queue of events; the bound is kept exactly if no retry is overtaken |
| EngineLifecycle.CompletionsMatchCommands | src/engine/engineprivate.cpp:242-293 | under every sequence of calls, events and reports the notifications answer the accepted commands one for one, in order; only the command under way has none |
| EngineLifecycle.ExecuteAnswers | src/engine/engineprivate.cpp:751-769 | a command is taken on exactly if it is valid, none is under way, and only a connect command finds no connection; what is answered otherwise |
| EngineLifecycle.CancelAnswers | src/engine/engineprivate.cpp:836-845 | a cancel event is sent exactly if a command is under way |
| EngineLifecycle.WorthRetryingIs | src/engine/engineprivate.cpp:257-264 | for which codes a connect command is retried, bit by bit |
| EngineLifecycle.StepDelivers | src/engine/engineprivate.cpp:242-293 | whatever the step, the notifications it adds have the code of the first report made for the command while no retry is pending: the handler, the precondition or the socket; a Disconnect that closes the connection is answered by the closing, a cancelled retry as disconnected and cancelled, and none is added if a connect command is retried |
| EngineLifecycle.DisconnectIsAnsweredByClosing | src/engine/engineprivate.cpp:320-329 | a Disconnect that closes a connection is answered with error and disconnected |
| EngineLifecycle.NotificationsSayWhatWasReported | src/engine/engineprivate.cpp:242-736 | over every run the notifications are exactly these |
| EngineLifecycle.NobodyIsForgotten | src/engine/engineprivate.cpp:492-769 | a command under way has its event queued, a retry pending, or a socket; and only a connect command has a retry pending |
| EngineLifecycle.SocketsAreBounded | src/engine/engineprivate.cpp:516-568 | unless an event overtakes a pending retry, a connect command makes at most max(1, reconnect count) sockets |
| EngineLifecycle.UninterruptedSocketsAreBounded | src/engine/engineprivate.cpp:708-736 | in particular if no command is cancelled or reported on before its event is handled |
| EngineLifecycle.OvertakingExceedsTheBound | src/engine/engineprivate.cpp:301-318 | any overtaking, in any reachable state within the bound, of a supported command that asks for retries lets these make more sockets than allowed |
| EngineLifecycle.OvertakingHappens | src/engine/engineprivate.cpp:751-769 | a run from the idle engine that does so, for every reconnect count |
| EngineObject.FileZillaEngine.Execute | src/engine/engineprivate.cpp:751-769 | accepts a command exactly if it is valid and its preconditions hold, and sends itself one event |
| EngineObject.FileZillaEngine.Cancel | src/engine/engineprivate.cpp:836-845 | sends itself a cancel event exactly if a command is under way |
| EngineObject.FileZillaEngine.Dispatch | src/engine/engineprivate.cpp:602-614 | handles the oldest event as specified |
| EngineObject.FileZillaEngine.ResetOperation | src/engine/engineprivate.cpp:242-293 | the new fields are the specified ones |
| EngineObject.FileZillaEngine.ContinueConnect | src/engine/engineprivate.cpp:516-568 | waits with the timer or makes a socket |
| EngineObject.FileZillaEngine.OnCommandEvent | src/engine/engineprivate.cpp:630-706 | the new fields are the specified ones |
| EngineObject.FileZillaEngine.OnTimer | src/engine/engineprivate.cpp:492-514 | the new fields are the specified ones |
| EngineObject.FileZillaEngine.Disconnect | src/engine/engineprivate.cpp:320-329 | the new fields are the specified ones |
| EngineObject.FileZillaEngine.DoCancel | src/engine/engineprivate.cpp:708-736 | the new fields are the specified ones |
| TransferStatus.RunsKeepInv | src/engine/engineprivate.cpp:870-954 | under every interleaving no byte and no signal is lost |
| TransferStatus.GetReportsEverything | src/engine/engineprivate.cpp:934-954 | the next query reports every byte counted since the start |
| TransferStatus.SleepingMeansUpToDate | src/engine/engineprivate.cpp:908-954 | if the interface is not asking, nothing is under way and no thread has yet to announce, all bytes have been reported |
| TransferStatus.GetTells | src/engine/engineprivate.cpp:870-954 | over every run a query reports the start of the last transfer begun and the bytes added since, and a change exactly if bytes were announced since the last query |
| TransferStatus.EverythingIsReported | src/engine/engineprivate.cpp:908-954 | from every reachable state the threads under way can finish, and then the interface asks or knows all |
| TransferStatus.TransferStatusManager.AddBytes | src/engine/engineprivate.cpp:908-914 | the atomic part of an update, and whether it found the counter at zero |
| TransferStatus.TransferStatusManager.Announce | src/engine/engineprivate.cpp:915-932 | the locked part of an update |
| TransferStatus.TransferStatusManager.GetStatus | src/engine/engineprivate.cpp:934-954 | moves the counter into the offset and reports the change |
| ActivityLogger.RunsKeepInv | src/engine/activity_logger.cpp:3-37 | under every interleaving of the single accesses to the counters, with 64-bit wrap-around, nothing recorded is lost and the consumer never waits on an amount without a recorder about to wake it |
| ActivityLogger.WaitingMeansNothingLeft | src/engine/activity_logger.cpp:3-37 | once every recorder is through, a waiting consumer has got all |
| ActivityLogger.NothingIsLost | src/engine/activity_logger.cpp:3-37 | over every run what was extracted and what is counted add up to the amounts recorded since a new notifier, up to wrap-around |
| ActivityLogger.NotifiedWhenWoken | src/engine/activity_logger.cpp:6-13 | the notifier is called exactly when a waiting consumer stops waiting |
| ActivityLogger.NoticedOnce | src/engine/activity_logger.cpp:3-37 | the first amount after the consumer found nothing wakes it once |
| ActivityLogger.NobodyIsLockedOut | src/engine/activity_logger.cpp:3-37 | in every reachable state recorders can go on, and whoever holds the lock gives it back in its next step |
| ActivityLogger.Logger.Record | src/engine/activity_logger.cpp:3-6 | adds to the counter and says whether the lock has to be taken |
| ActivityLogger.Logger.SetNotifierTo | src/engine/activity_logger.cpp:29-35 | a new notifier clears the first counter, ... |
| ActivityLogger.Logger.ClearSecond | src/engine/activity_logger.cpp:34-36 | ... and then the second, before it waits |
| ActivityLogger.Logger.Wake | src/engine/activity_logger.cpp:6-13 | calls the notifier exactly if the consumer waits |
| DirectoryListing.AppendKeepsIndexed | src/engine/directorylisting.cpp:211-214 | name maps survive an appended entry |
| DirectoryListing.SetSameNameKeepsIndexed | src/engine/directorylisting.cpp:63-68 | and a changed entry of the same name |
| DirectoryListing.RenameIsSafeIff | src/engine/directorylisting.cpp:201-209 | renaming and clearing leaves right maps exactly if no no-case map outlives the clearing, stops short of the entry, or sees no difference |
| DirectoryListing.DirectoryListingObject.Search | src/engine/directorylisting.cpp:136-158 | the lazily filled map and the scan behind it find an entry exactly if there is one, and the map stays a right prefix |
| DirectoryListing.DirectoryListingObject.FindFileCmpCase | src/engine/directorylisting.cpp:123-159 | an index of that name, or none exactly if there is none |
| DirectoryListing.DirectoryListingObject.FindFileCmpNoCase | src/engine/directorylisting.cpp:161-199 | the same for folded names, with or without a lookup of the other kind before |
| DirectoryListing.DirectoryListingObject.LookupFile | src/engine/directorycache.cpp:147-158 | exact first, then folded; keeps both maps right |
| CacheState.EntryHasNode | src/engine/directorycache.cpp:650-662 | every entry's back pointer leads to a node of the LRU list that leads back |
| CacheState.NodeHasEntry | src/engine/directorycache.cpp:650-662 | every node leads to an entry whose back pointer is that node |
| CacheState.MovedIsLast | src/engine/directorycache.cpp:650-656 | a touched entry becomes the most recently used |
| CacheState.EditKeepsInv | src/engine/directorycache.cpp:254-398 | editing listings keeps the bijection, and the count right |
| CacheState.EraseKeepsInv | src/engine/directorycache.cpp:506-525 | so does erasing entries |
| CachePruning.EvictKeepsInv | src/engine/directorycache.cpp:669-680 | so does evicting the front of the LRU list |
| CacheView.ViewOfEvict | src/engine/directorycache.cpp:669-680 | evicting forgets exactly the listing of the least recently used entry |
| CacheView.ViewOfEdit | src/engine/directorycache.cpp:254-398 | an edit changes exactly the listings it concerns |
| CacheView.ViewOfErase | src/engine/directorycache.cpp:506-525 | erasing forgets exactly the listings it selects |
| CacheStore.PruneKeepsInv | src/engine/directorycache.cpp:663-682 | pruning ends, keeps the bookkeeping, and restores all three size limits |
| CacheStore.PruneEvictsPrefix | src/engine/directorycache.cpp:663-682 | the LRU list loses entries at its old end only, and a hundred always stay |
| CacheStore.PruneOnlyForgets | src/engine/directorycache.cpp:663-682 | what stays is unchanged |
| CacheStore.PruneIsSparing | src/engine/directorycache.cpp:663-682 | pruning evicts no more than the limits call for: before its last eviction one of them was exceeded |
| CacheStore.StoreForgetsNothing | src/engine/directorycache.cpp:29-55 | a store that stays within the limits forgets nothing |
| CacheStore.PruneKeepsNewest | src/engine/directorycache.cpp:663-682 | the most recently used entry is never evicted |
| CacheStore.StoreKeepsInv | src/engine/directorycache.cpp:29-55 | storing keeps the bijection; the count goes wrong exactly by the files of a listing for an ambiguous path |
| CacheStore.AmbiguousIff | src/engine/directorycache.cpp:29-55 | a path is ambiguous exactly if it is not cached but one is that the order cannot tell from it |
| CacheStore.StoreEvicts | src/engine/directorycache.cpp:29-55 | a replaced listing evicts nothing; any other store ends within the three limits, and the LRU list has the new node at its end and has lost nodes at its old end only |
| CacheStore.StoredIsThere | src/engine/directorycache.cpp:29-55 | otherwise a stored listing is found afterwards, whatever was pruned for it |
| CacheStore.StoreForgets | src/engine/directorycache.cpp:29-55 | storing changes no other listing; pruning may forget some |
| CacheEdits.UpdateIsFaithful | src/engine/directorycache.cpp:333-392 | an update takes no unsure bit back, and changes content only together with one; name maps stay right |
| CacheEdits.RemoveIsFaithful | src/engine/directorycache.cpp:412-446 | the same for a removal |
| CacheEdits.RenameIsFaithful | src/engine/directorycache.cpp:556-562 | the same for a rename in place |
| CacheEdits.ReownIsFaithful | src/engine/directorycache.cpp:611-614 | a change of owner leaves everything else the same |
| CacheEdits.RemovedFileEntries | src/engine/directorycache.cpp:415-444 | a removal takes out one entry of exactly that name, or only marks others |
| CacheContents.UpdatedFileIs | src/engine/directorycache.cpp:333-392 | entry by entry and bit by bit: if no entry has this name, its kind is known and that is wanted, there is one more, with this name, size and owner, unsure, a directory exactly if said so; every other entry stays, marked if of the same folded name; which bit is set |
| CacheContents.RemovedFileIs | src/engine/directorycache.cpp:412-446 | the first entry of the name goes with the name maps, or those of the same folded name are marked; which bit is set |
| CacheContents.InvalidatedFileIs | src/engine/directorycache.cpp:283-298 | all entries of the same folded name are marked |
| CacheContents.RenamedFileIs | src/engine/directorycache.cpp:556-562 | one entry has the new name and is unsure |
| CacheContents.ReownedFileIs | src/engine/directorycache.cpp:611-614 | one entry has the new owner, and nothing is unsure for it |
| CacheRuns.UpdateFileView | src/engine/directorycache.cpp:318-398 | after an update every listing of that directory, in whatever case, is updated and unsure, and no other is changed |
| CacheRuns.RemoveFileView | src/engine/directorycache.cpp:400-448 | the same after a removal |
| CacheRuns.InvalidateFileView | src/engine/directorycache.cpp:254-316 | what an invalidation does to every listing of every server: those of the directory are marked; if the file is known as a directory there, so are exactly those below the given directory; no other changes |
| CacheRuns.InvalidatedIsUnsure | src/engine/directorycache.cpp:254-316 | the listings so marked are unsure |
| CacheRuns.SiblingIsMarked | src/engine/directorycache.cpp:300-312 | a run in which invalidating a directory marks the listing of its sibling |
| CacheRuns.RemoveDirView | src/engine/directorycache.cpp:493-528 | after removing a directory, it and all below it are forgotten, and nothing else |
| CacheWrites.EqualNoCaseIs | src/engine/serverpath.cpp:955-990 | two paths are equal but for case exactly if their folded parts are equal, or both are empty |
| CacheWrites.UpdateFileWrites | src/engine/directorycache.cpp:318-398 | so for every server and path: the listings of the directory, in whatever case, are written to in this way, and no others |
| CacheWrites.RemoveFileWrites | src/engine/directorycache.cpp:400-448 | the same for a removal |
| CacheWrites.RemoveDirWrites | src/engine/directorycache.cpp:493-528 | the same for a directory: what lies below it but for case is forgotten |
| CacheWrites.InvalidateFileWrites | src/engine/directorycache.cpp:254-316 | the same for an invalidation |
| CacheWrites.RenameMoves | src/engine/directorycache.cpp:530-590 | what a rename leaves: the old name is removed and the new one written, as a directory or file as the old one was; in one directory what had the new name goes first and a file is renamed; if the directory is not cached the server is forgotten |
| CacheWrites.UpdateOwnerGroupWrites | src/engine/directorycache.cpp:592-623 | a change of owner changes one file of one listing, nothing for a directory, and forgets the server for an unknown name |
| CacheTimes.StoreTimes | src/engine/directorycache.cpp:29-55 | a stored listing has the time of the call; those that stay keep theirs |
| CacheTimes.UpdateFileTimes | src/engine/directorycache.cpp:392 | a write sets the times of the listings it concerns and no others |
| CacheTimes.RemoveFileTimes | src/engine/directorycache.cpp:444 | so does a removal |
| CacheTimes.InvalidateFileTimes | src/engine/directorycache.cpp:299-309 | so does an invalidation |
| CacheTimes.RemoveDirTimes | src/engine/directorycache.cpp:493-528 | so does the removal of a directory |
| CacheTimes.PutKeepsTimes | src/engine/directorycache.cpp:556-614 | renaming a file in place, changing its owner and looking up change no times |
| CacheRuns.InvalidateServerView | src/engine/directorycache.cpp:450-472 | an invalidated server has nothing cached; the others keep all |
| CacheRuns.RenameIsGood | src/engine/directorycache.cpp:530-590 | a rename keeps the bookkeeping and treats every listing that stays faithfully |
| CacheRuns.UpdateOwnerGroupIsGood | src/engine/directorycache.cpp:592-623 | so does a change of owner |
| CacheRuns.StepIsGood | src/engine/directorycache.cpp:57-623 | no operation but storing brings in a listing or changes one unnoticed |
| CacheRuns.RunsCountRight | src/engine/directorycache.cpp:29-682 | over every run the count exceeds the number of cached files by exactly the files that came for ambiguous paths; it is right if files are stored for plain paths only |
| CacheRuns.MiscountHappens | src/engine/directorycache.cpp:29-55 | storing for any two paths the order cannot tell apart counts the files of the second, which is not found afterwards |
| CacheRuns.EmptyPathsMiscount | src/engine/directorycache.cpp:29-55 | for example for empty paths of two server types |
| CacheRuns.NodesAreBounded | src/engine/directorycache.cpp:663-682 | over every run at most 50000 listings are cached |
| CacheRuns.CachedIsFaithful | src/engine/directorycache.cpp:57-97 | over every run a cached listing descends faithfully from the one last stored for its path |
| CacheRuns.TrustedHit | src/engine/directorycache.cpp:57-97 | over every run a cached listing without unsure bits has the content last stored, apart from owners and groups |
| CacheOrder.StepOrders | src/engine/directorycache.cpp:29-656 | every operation makes the listings it uses the latest of the LRU list and leaves the others in their order |
| CacheOrder.LruIsByLastUse | src/engine/directorycache.cpp:650-656 | over every run the LRU list is ordered by the last call that used each listing |
| CacheOrder.EvictedWasLeastRecentlyUsed | src/engine/directorycache.cpp:663-682 | over every run what a store evicts was last used no later than anything that stays cached, on whatever server |
| DirectoryCache.MarkEntries | src/engine/directorycache.cpp:333-345 | the loop marks exactly the entries of the same folded name, ending at an exact one if told to, and says whether it met a directory |
| DirectoryCache.Update | src/engine/directorycache.cpp:333-394 | the scan and the cases behind it give the specified listing |
| DirectoryCache.Remove | src/engine/directorycache.cpp:412-446 | the scans give the specified listing |
| DirectoryCache.Apply | src/engine/directorycache.cpp:283-298 | each kind of change gives the specified listing |
| DirectoryCache.Cache.UpdateLru | src/engine/directorycache.cpp:650-662 | moves the node to the end, or makes one |
| DirectoryCache.Cache.LookupEntry | src/engine/directorycache.cpp:76-97 | a hit is an entry for exactly this path; it is touched even if its unsure bits then turn the caller away |
| DirectoryCache.Cache.Lookup | src/engine/directorycache.cpp:57-74 | finds what the cache, seen as a map, holds |
| DirectoryCache.Cache.GetChangeTime | src/engine/directorycache.cpp:474-491 | tells the time for exactly this path, and counts as a use |
| DirectoryCache.Cache.LookupFile | src/engine/directorycache.cpp:118-163 | the answer is right for the names in the listing, unless that is too old for the caller, and only the name maps change |
| DirectoryCache.Cache.EditEntries | src/engine/directorycache.cpp:267-300 | the loop edits and touches exactly the entries concerned and recounts them, and says whether there were any and whether it met a directory |
| DirectoryCache.Cache.EraseEntries | src/engine/directorycache.cpp:508-525 | the loop erases exactly the entries selected |
| DirectoryCache.Cache.Prune | src/engine/directorycache.cpp:663-682 | the loop evicts from the front until the limits hold |
| DirectoryCache.Cache.Store | src/engine/directorycache.cpp:29-55 | the new fields are the specified ones |
| DirectoryCache.Cache.InvalidateServer | src/engine/directorycache.cpp:450-472 | the new fields are the specified ones |
| DirectoryCache.Cache.UpdateFile | src/engine/directorycache.cpp:318-398 | the new fields are the specified ones, and whether any listing was concerned |
| DirectoryCache.Cache.RemoveFile | src/engine/directorycache.cpp:400-448 | the new fields are the specified ones |
| DirectoryCache.Cache.InvalidateFile | src/engine/directorycache.cpp:254-316 | the new fields are the specified ones |
| DirectoryCache.Cache.RemoveDir | src/engine/directorycache.cpp:493-528 | the new fields are the specified ones |
| DirectoryCache.Cache.Rename | src/engine/directorycache.cpp:530-590 | the new fields are the specified ones |
| DirectoryCache.Cache.UpdateOwnerGroup | src/engine/directorycache.cpp:592-623 | the new fields are the specified ones |
| ServerPaths.ComputeIsSubdirOf | src/engine/serverpath.cpp:461-524 | the walk answers whether the other path's segments are a proper prefix, or all if allowed |
| ServerPaths.SubdirIsStrictOrder | src/engine/serverpath.cpp:461-529 | being below is a strict order |
| ServerPaths.SubdirLiesIn | src/engine/serverpath.cpp:461-529 | being below, folded or not, means the same type and prefix, and segments that continue those of the directory; on MVS the directory must be a prefix of data sets |
| ServerPaths.ComputeSegmentsLess | src/engine/serverpath.cpp:892-907 | the walk of the comparison gives the lexicographic order of the segments up to their first NULs |
| ServerPaths.PathOrder | src/engine/serverpath.cpp:864-908 | the order of paths is strict, and does not tell two paths apart exactly if they are alike: both empty, or equal up to NULs in their segments |
| ServerPaths.KeyTellsApart | src/engine/serverpath.cpp:864-908 | an ordered set tells paths apart exactly by their keys, with segments cut at NULs |
| SafePath.FillScratch | src/engine/serverpath.cpp:273-281 | the digits of every 64-bit size fit the scratch array, backwards |
| SafePath.PrintNumber | src/engine/serverpath.cpp:273-288 | the decimal number is written to the buffer |
| SafePath.SizesHaveTwentyDigits | src/engine/serverpath.cpp:273-276 | every size below 2^64 has at most 20 digits |
| SafePath.CopyString | src/engine/serverpath.cpp:318-330 | what copying up to the first NUL leaves in the zeroed buffer |
| SafePath.GetSafePath | src/engine/serverpath.cpp:292-335 | the printed text is the specified one, and no write leaves the precomputed buffer |
| SafePath.SafePathReader.ScanNumber | src/engine/serverpath.cpp:363-377 | the digit loop reads the specified number or fails, and looks at nothing behind the terminator |
| SafePath.SafePathReader.ScanSegments | src/engine/serverpath.cpp:412-440 | the loop reads the specified segments or fails |
| SafePath.SafePathReader.SetSafePath | src/engine/serverpath.cpp:337-443 | the object becomes the path read, or the empty path of the type read |
| SafePath.SafeTextGrows | src/engine/serverpath.cpp:292-335 | the text is built up from the type, the length of the prefix or 0, and the length and text of each segment, with spaces between |
| SafePath.DigitsAreDecimal | src/engine/serverpath.cpp:273-288 | numbers are written in decimal without leading zeros |
| SafePath.NumberIs | src/engine/serverpath.cpp:363-377 | in any text, printed or not, a number is read exactly if there are digits up to a space, within the limit |
| SafePath.CopyIsFaithful | src/engine/serverpath.cpp:318-330 | a string survives the copying exactly if nothing but NULs follows its first NUL |
| SafePath.ReadsPath | src/engine/serverpath.cpp:347-443 | what reading any printed text gives, including empty and overlong strings |
| SafePath.SafePathRoundTrip | src/engine/serverpath.cpp:292-443 | reading what was printed gives the path back exactly if no string is empty, over 32767 characters, or goes on after a NUL |
| PathFormats.Segmentize | src/engine/serverpath.cpp:1231-1267 | the loop over the separators gives the specified segments or fails |
| PathFormats.SegmentizeAddSegment | src/engine/serverpath.cpp:1199-1229 | drops dots, goes back on two, joins what was escaped, or adds a segment |
| PathFormats.PrintSegments | src/engine/serverpath.cpp:167-186 | the loop joins the escaped segments with separators |
| PathFormats.ChangedIsCanonical | src/engine/serverpath.cpp:547-842 | every change of a canonical path, and every path parsed from a text, is canonical, for all server types |
| PathFormats.EscapedIsRead | src/engine/serverpath.cpp:1199-1267 | on VMS an escaped segment with dots in it is read back as one |
| PathFormats.PathRoundTrip | src/engine/serverpath.cpp:136-203 | for every server type, parsing a printed path gives it back exactly if it is canonical |
| PathFormats.ReachedPathsSurvive | src/engine/serverpath.cpp:547-842 | however a path was reached by parsing and changing, it can be printed and parsed again |
| PathFormats.ParentIsCanonical | src/engine/serverpath.cpp:225-240 | the parent of a canonical path is canonical |
| PathFormats.DotsGoUp | src/engine/serverpath.cpp:1199-1211 | where two dots mean going up, changing to them gives the parent, and the root stays |
| PathFormats.NameGoesDown | src/engine/serverpath.cpp:808-825 | on Unix-like servers changing to a name gives the child |
| PathChanges.AbsoluteForgets | src/engine/serverpath.cpp:547-842 | for every server type a change by an absolute text gives what parsing the text gives, whatever the old path was; at most the prefix is kept, and a whole data set on MVS cannot be changed at all |
| PathChanges.AbsoluteIsParsed | src/engine/serverpath.cpp:547-842 | so for canonical paths that are not whole data sets the old path does not matter, but for the device on VMS |
| PathChanges.ChangeStepwise | src/engine/serverpath.cpp:547-842 | for every server type a change can be made step by step, each step ending in a separator |
| PathChanges.SeparatorsAlone | src/engine/serverpath.cpp:547-842 | separators alone lead to the root, on DOS to that of the drive, and elsewhere nowhere |
| PathChanges.TrailingSeparator | src/engine/serverpath.cpp:1231-1267 | a trailing separator does not matter, except on MVS |
| PathChanges.OneStep | src/engine/serverpath.cpp:1199-1229 | a single step stays, goes up, or goes down by the name |
| PathChanges.BehindDevice | src/engine/serverpath.cpp:758-784 | on VxWorks the text behind a device is relative to it |
| PathChanges.WithinBrackets | src/engine/serverpath.cpp:566-614 | on VMS so is the text in the brackets |
| PathChanges.WithinQuotes | src/engine/serverpath.cpp:656-740 | and on MVS the text in the quotes |
| PathChanges.FromTheTop | src/engine/serverpath.cpp:616-757 | a drive, or a system on HP NonStop, becomes the only segment |
| PathChanges.EscapeJoins | src/engine/serverpath.cpp:1199-1229 | on VMS an escape joins what is before and behind the separator |
| PathChanges.ParentIs | src/engine/serverpath.cpp:205-240 | which paths have parents, and that adding a segment leads back |
| PathChanges.PrintedTop | src/engine/serverpath.cpp:136-203 | how the shortest paths of the types without brackets and quotes are printed |
| PathChanges.PrintedChild | src/engine/serverpath.cpp:136-203 | and how a child is printed behind its parent |
| PathChanges.PrintedWithin | src/engine/serverpath.cpp:136-203 | how paths with brackets and quotes are printed |
| PathFiles.ChangedFileIsCanonical | src/engine/serverpath.cpp:547-842 | for all server types the path left when a file name is split off is canonical exactly if the text does not name a member of an MVS data set whose own name ends in a parenthesis |
| PathFiles.PathLeftSurvivesIff | src/engine/serverpath.cpp:547-842 | and is given back by printing and parsing exactly then |
| PathFiles.MemberIsSplitOff | src/engine/serverpath.cpp:696-713 | a member of such a data set is split off |
| PathFiles.ParenthesisedIsLost | src/engine/serverpath.cpp:696-713 | and that data set does not survive printing and parsing |
| PathFiles.FileIsLastSegment | src/engine/serverpath.cpp:1269-1286 | a named file is split off exactly if the text ends in a name and, taken as a whole for a directory, leads to a path with the file as its last segment and the path left as its parent; for members and for files of whole data sets on MVS there is no such directory |
| PathFiles.FileIsBehindBracket | src/engine/serverpath.cpp:564-608 | on VMS the file is exactly what stands behind the bracket of a directory, and the path left is what changing to that directory gives; or all of a text without brackets |
| PathFiles.EmptyNameIff | src/engine/serverpath.cpp:547-842 | a change by a text with a file name succeeds without a name exactly for a bare device, a lone separator behind a drive, or an empty member |
| PathFiles.EmptyMemberIsSplitOff | src/engine/serverpath.cpp:696-713 | for example an empty member of a data set |
| LocalPath.PassSeparator | src/engine/local_path.cpp:148-181 | at a separator the piece is dropped, takes one segment with it, or becomes a segment, in the buffer and on the stack |
| LocalPath.PassCharacter | src/engine/local_path.cpp:182-198 | a character is written and the kind of the piece followed |
| LocalPath.Path.SetPath | src/engine/local_path.cpp:25-222 | succeeds exactly for absolute paths, with the canonical form; no write is behind one character more than the text has |
| LocalPath.Path.AddSegment | src/engine/local_path.cpp:353-367 | appends the segment and a separator |
| LocalPath.Path.MakeParent | src/engine/local_path.cpp:321-351 | cuts behind the last separator but one |
| LocalPath.Path.ChangePath | src/engine/local_path.cpp:369-417 | absolute, or relative to the path there is |
| LocalPath.ResultIsCanonical | src/engine/local_path.cpp:25-222 | the result is the root and ordinary segments, each followed by a separator |
| LocalPath.Idempotent | src/engine/local_path.cpp:25-222 | a result is its own canonical form |
| LocalPath.RelativeContinues | src/engine/local_path.cpp:404-415 | behind a canonical path the text is resolved from its segments |
| LocalPath.Stepwise | src/engine/local_path.cpp:25-222 | what follows a separator in a text is resolved from what is in front of it |
| LocalPath.DotsGoUp | src/engine/local_path.cpp:148-181 | an empty piece and a dot do nothing, and two dots lead to the parent, or stay at the root |
| LocalPath.SplitsFile | src/engine/local_path.cpp:208-216 | with a file wanted, exactly the last ordinary piece is split off |
| LocalPath.AddSegmentGoesDown | src/engine/local_path.cpp:353-367 | adding a segment is changing to its name |
| LocalPath.ParentGoesUp | src/engine/local_path.cpp:321-351 | the parent lacks exactly the last segment; only the root has none |
| ChunkPlanner.ChunkKeepsFitting | src/engine/controlsocket.cpp:1222-1265 | a chunk is between 1 and what remains and the maximum, and the rest still fits the parts left |
| ChunkPlanner.ChunkIsMeasured | src/engine/controlsocket.cpp:1222-1265 | a chunk is the most that takes thirty seconds at the measured speed, or an even share for the parts left, rounded up to the multiple, but no more than the maximum and what remains |
| ChunkPlanner.RunsFinish | src/engine/controlsocket.cpp:1222-1265 | whatever speeds are measured, the chunks of a file that fits add up to it within the parts allowed |
| ChunkPlanner.RunsAreMultiples | src/engine/controlsocket.cpp:1248-1258 | if the maximum is a multiple, so is every chunk but the last |
| ChunkPlanner.FinishesIffItFits | src/engine/controlsocket.cpp:1222-1265 | with both limits, as many chunks as parts send the file exactly if the parts can hold it |
| Quoting.QuoteCommand | src/commonui/file_utils.cpp:66-86 | the loop gives the specified command line |
| Quoting.QuotedArgIs | src/commonui/file_utils.cpp:71-82 | which arguments are put in quotes, and how: every double quote in them is doubled |
| Quoting.UnquoteFirst | src/commonui/file_utils.cpp:88-138 | the loop takes off the specified argument, or leaves the text alone |
| Quoting.UnquoteCommand | src/commonui/file_utils.cpp:140-163 | the loop gives the specified arguments |
| Quoting.TakenIsGood | src/commonui/file_utils.cpp:88-163 | an argument that comes out had to be quoted or holds no line break |
| Quoting.QuoteRoundTrip | src/commonui/file_utils.cpp:66-163 | taking apart what was quoted gives the same list exactly if the first argument is not empty and each argument was quoted or holds no line break |

## Left out

- Sockets, TLS, rate limiting, the event loop, files and the clock: arbitrary replies, speeds and times stand for them.
- The individual listing formats, character decoding and the deduction of EBCDIC: the line parser and the decoder are
  parameters of ListingParser, fixed for a run.
- The sizes of the buffers that are taken over by the listing parser are at least 1; the line is copied by appending.
- Concrete protocol operations: the operations on a control socket's stack give arbitrary answers and have arbitrary
  resets, as far as these change the code.
- Engine shutdown, asynchronous requests, and the delay computed from failed logins, which is a parameter.
- Integers are unbounded, except for the activity counters, which wrap at 64 bits, and the sizes printed into safe
  paths, which are below 2^64.
- Copy-on-write sharing of listings and paths: they are values.  The node of an entry in the LRU list is an identity
  instead of an iterator, and a server's entries are an ordered sequence instead of a tree.
- DirectoryCache.Cache.LookupFile: the variant that answers for several files at once is not modelled.
- PathFiles.FileIsLastSegment: VMS is left out, where a file is no segment; `PathFiles.FileIsBehindBracket` is the law there.
- PathFormats.PathRoundTrip: the server type is fixed; guessing it from a text is not modelled.
- LocalPath.Path.SetPath: the Windows branches are not modelled.
- ChunkPlanner.RunsFinish: products that exceed 64 bits are not modelled.
- Folding of letter case is an arbitrary function, the same for names and paths.
- Comparison of paths for display, proxy sockets, settings, the site manager and the user interface.
