# Kimi Code CLI: a Dafny model of its protocol, stream and file-reading core

This project models six components of the CLI and proves what each promises.

| component | source | modules |
|---|---|---|
| OAuth token refresh by many processes, and the device-code login | `packages/oauth/src` | `TokenState`, `RefreshProtocol`, `RefreshReads`, `RefreshFreshness`, `Coalescer`, `RefreshService`, `DeviceLogin` |
| assembling a message from streamed parts | `packages/kosong/src` | `MessageParts`, `Generate`, `GenerateProofs`, `GenerateContent` |
| decoding text and reading files by lines, in chunks | `packages/kaos/src/internal.ts`, `local.ts` | `Utf8`, `Utf8Validator`, `Utf16`, `Characters`, `Lines`, `Scanner`, `LineReader`, `LineProofs`, `TailReader` |
| the `**` glob walk, local and over SSH | `packages/kaos/src/local.ts`, `ssh.ts` | `GlobWalk`, `GlobProofs`, `GlobOrder`, `GlobRepeats`, `SshGlob` |
| printing a remote command line | `packages/kaos/src/ssh.ts` | `Shell` |
| the ACP turn bridge and the history replay | `packages/acp-adapter/src` | `WireId`, `AcpTurn`, `AcpTurnProofs`, `AcpTurnTexts`, `AcpTurnOutcome`, `AcpReplay`, `AcpReplayContent`, `AcpReplayProofs`, `AcpReplayDelivery`, `AcpReplayOwners` |

`Basics` holds `Option`, `Result` and shared sequence lemmas.  `dafny verify dfyconfig.toml` checks everything.

Code that the repository writes as loops and field updates is written the same way here, as methods over
classes and local variables, and each such method is proved equal to a specification function (`Run`, `Walk`,
`DecodeIgnore`, `Step`, ...).  The theorems are about those functions: agreement with an independent definition
(the grammar of RFC 3629, a declarative matcher, a per-header projection of the stream, the POSIX shell's token
rules), invariants of every reachable state, or round trips.  Beside them stand theorems that say what each
specification function means without naming it: which step each read, reply or event leads to, which notes a
prompt or a replay sends, which slice of the lines a range is.

Reading notes, where the theorems say more or less than one might expect of the code:

- *Refresh.*  A run interleaves the atomic steps of any number of processes.  `RotationSafety` assumes the server
  does not revoke on its own; the tombstone theorems allow it to.  A forced call is always answered with a token
  newer than the one it first read (`ForcedRefreshIsFresh`).  That this token was also issued after that read holds
  exactly when no peer had a redeemed token still to be saved at the time (`ForcedAnswerPostdatesLoadIff`).
  Inside the lock the recovery read after a rejected redeem never finds a peer's token (`TombstoneMeansRevoked`).
  `RefreshService` puts slot and protocol together: who joins a run is promised what the run's own read implies.
- *Tail.*  `readTailLines` and the last lines of `readLines` differ exactly when the last line of the file decodes
  to nothing (`TailEqualsSuffix`); in strict mode that is one file, the lone byte order mark (`HollowIsLoneBom`), in
  ignore mode a last line in which no character starts (`HollowIffNoCharacter`).
- *Turn bridge.*  The argument accumulator is keyed by the provider's raw id, the cards by turn and raw id.  A card
  shows its own parts exactly as long as no other turn uses the same raw id between two of its events and no result
  of it comes behind the last of them (`ClientShowsOwnTextIff`).  What an interrupted card shows instead is
  `InterruptedCardShows`.
- *Replay.*  When pushes fail, a result belongs to the latest message that got as far as recording its id
  (`ResultGoesToLatestOwner`), and it can reach a client that never got its card: exactly when the push of the card's
  first create failed (`DeliveredCreateIff`).
- *Glob.*  The paths found are those that match and along which no entered directory repeats.  A pattern never yields
  a path twice exactly if it has at most one `**` or a segment that no name in a listing matches, as the empty one in
  `**//**` (`NeverRepeatsIff`).  A directory without an inode number cannot be recognised again; the walk ends exactly
  if those alone form no cycle (`EndsIffNoInodelessCycle`).

## Model

| member | source | states |
|---|---|---|
| `TokenState.DueFrom` | packages/oauth/src/oauth-manager.ts:31-36 | with the default threshold a token is due once past half its lifetime or within five minutes of its end, whichever is earlier |
| `TokenState.TombstoneReadsAsRevoked` | packages/oauth/src/token-state.ts:28-45 | a written tombstone is read as revoked with the prior scope and type; a record is valid iff its access token is nonempty |
| `TokenState.DueIff` | packages/oauth/src/oauth-manager.ts:459-464 | for every token: due by default iff it expires and is within five minutes of its end or past half of a known lifetime; forced is always due |
| `RefreshReads.FirstRead` | packages/oauth/src/oauth-manager.ts:284-307 | from any state: without a record or access token the first read ends unauthorized; an unforced call answers with the token read iff it never expires or has at least the threshold left; every other call goes on to the lock |
| `RefreshReads.SecondRead` | packages/oauth/src/oauth-manager.ts:325-361 | the read under the lock: tombstone ends unauthorized, a token not due or (forced) changed by a peer is the answer, anything else is redeemed, the snapshot if the file is gone, unless there is no refresh token |
| `RefreshReads.Reply` | packages/oauth/src/oauth-manager.ts:363-397 | an accepted redeem is to be saved, a rejected one leads to the recovery read, any other failure ends the call with its error; the file is untouched |
| `RefreshReads.Writes` | packages/oauth/src/oauth-manager.ts:363-391 | exactly what a save and a tombstone put into the file, and how the call ends |
| `RefreshReads.RecoveryRead` | packages/oauth/src/oauth-manager.ts:376-391 | another refresh token in the file is the answer, everything else leads to the tombstone |
| `RefreshReads.LockSteps` | packages/oauth/src/oauth-manager.ts:309-397 | the lock is taken when free and given back at the end; a call that does not get it ends in error |
| `RefreshReads.NextSteps` | packages/oauth/src/oauth-manager.ts:284-398 | which steps are possible at each point of a call: always one, and a choice only where lock or server decide |
| `RefreshProtocol.StepKeepsInv` | packages/oauth/src/oauth-manager.ts:284-398 | every step of every process keeps the invariant: the file holds the newest saved token (or a revoked one's tombstone), the lock holder alone is in the critical section and knows the current token, answers are never older than the caller's snapshot; what each step does is `RefreshReads` |
| `RefreshProtocol.RunKeepsInv` | packages/oauth/src/oauth-manager.ts:284-398 | the invariant holds in every state of every interleaving |
| `RefreshProtocol.RotationSafety` | packages/oauth/src/oauth-manager.ts:284-398 | without server revocation every redeem presents the server's current token, none is rejected, none is redeemed twice, no tombstone is ever written |
| `RefreshProtocol.RedeemedAtMostOnce` | packages/oauth/src/oauth-manager.ts:363-367 | in any run, revocation included, the server accepts each refresh token at most once |
| `RefreshProtocol.SupersededWasRedeemed` | packages/oauth/src/oauth-manager.ts:363-367 | every issued token but the newest was redeemed at some step of the run |
| `RefreshProtocol.ForcedRefreshIsFresh` | packages/oauth/src/oauth-manager.ts:316-367 | a call that returns answers with a token no older than its snapshot; a forced one with a strictly newer token, its snapshot having been redeemed exactly once however many forced callers shared it |
| `RefreshProtocol.PeerTokenMayPredateTheCall` | packages/oauth/src/oauth-manager.ts:342-350 | a concrete run in which a forced call is answered with a token the server issued before that call began |
| `RefreshFreshness.ForcedAnswerPostdatesLoadIff` | packages/oauth/src/oauth-manager.ts:284-367 | in every state that satisfies the invariant, a forced call about to read the file can count on a token issued after that read, however the run goes on, iff no peer holds a redeemed token not yet saved |
| `RefreshFreshness.ForcedAnswerPostdatesLoad` | packages/oauth/src/oauth-manager.ts:284-367 | the safe direction for any position of any run |
| `RefreshFreshness.PendingSaveMayAnswer` | packages/oauth/src/oauth-manager.ts:338-350 | with a save pending at the read, the run can go on so that the forced call gets the token issued before it |
| `RefreshProtocol.TombstoneIsAbsorbing` | packages/oauth/src/oauth-manager.ts:284-331 | once a tombstone is stored the file never changes, nobody redeems or saves, and every read before or under the lock ends unauthorized |
| `RefreshProtocol.LateCallsFail` | packages/oauth/src/oauth-manager.ts:285-300 | a call begun after the tombstone can only end unauthorized |
| `RefreshProtocol.TombstoneMeansRevoked` | packages/oauth/src/oauth-manager.ts:369-393 | a tombstone implies a server revocation earlier in the run, and the recovery read never meets a peer's token |
| `Coalescer.EventKeepsInv` | packages/oauth/src/oauth-manager.ts:254-282 | every call, settlement, cleanup and retry keeps: the slot denotes exactly the run that is not over, forced callers share forced runs only |
| `Coalescer.ScheduleKeepsInv` | packages/oauth/src/oauth-manager.ts:254-282 | that invariant holds throughout every schedule |
| `Coalescer.OneRunAtATime` | packages/oauth/src/oauth-manager.ts:254-282 | at most one run is under way, the slot names it, a cleanup always finds its own run there, and runs start only with an empty slot |
| `Coalescer.ForcedCallersShareForcedRuns` | packages/oauth/src/oauth-manager.ts:257-270 | a forced caller is attached to a run iff that run was forced; otherwise it only waits behind it |
| `Coalescer.CallsJoinOrStart` | packages/oauth/src/oauth-manager.ts:254-282 | a call joins the run under way, or waits behind it if it forces and the run does not, or starts a run of its own kind when none is under way; a caller that comes back is treated the same |
| `Coalescer.CallersKeepTheirRun` | packages/oauth/src/oauth-manager.ts:263-265 | the run a caller shares never changes, nor does that run's kind |
| `Coalescer.RefreshCoalescer.EnsureFresh` | packages/oauth/src/oauth-manager.ts:254-282 | entering the manager: joins, waits or starts as the schedule step says, touching neither slot nor runs when one is in flight |
| `Coalescer.RefreshCoalescer.RunFinally` | packages/oauth/src/oauth-manager.ts:272-279 | the cleanup always empties the slot, because only its own run can be in it |
| `Coalescer.RefreshCoalescer.CallerRetries` | packages/oauth/src/oauth-manager.ts:266-269 | a forced caller that waited calls again once the run in front of it is over |
| `RefreshService.HistoryKeepsInv` | packages/oauth/src/oauth-manager.ts:254-398 | with one manager's runs being the calls of one process among many: the run in the slot is that process's current call and of the same kind, and settled results stay as new as they were |
| `RefreshService.FreeSlotCanStart` | packages/oauth/src/oauth-manager.ts:272-281 | whatever the processes are doing, the manager can always serve a call, a cleanup or a retry; a free slot means its process rests |
| `RefreshService.SharedAnswer` | packages/oauth/src/oauth-manager.ts:254-398 | every caller that shares a run is answered with a token no older than the run's own snapshot, and strictly newer if the caller forced the refresh |
| `DeviceLogin.PollAt` | packages/oauth/src/oauth-manager.ts:416-446 | the k-th poll starts before the deadline, at least one wait after the previous one, and its wait is max(interval, 1) plus 5 seconds per slow-down so far |
| `DeviceLogin.WaitFromWait` | packages/oauth/src/oauth-manager.ts:416-446 | each wait is the one before, plus five seconds exactly after a slow-down; the first starts from the interval, at least a second |
| `DeviceLogin.SecondsCover` | packages/oauth/src/oauth-manager.ts:407-408 | the budget is the least whole number of seconds that covers the time-out |
| `DeviceLogin.WaitsGrow` | packages/oauth/src/oauth-manager.ts:441-445 | waits never shrink |
| `DeviceLogin.PollTimes` | packages/oauth/src/oauth-manager.ts:419-446 | the k-th poll comes no earlier than k intervals after the start |
| `DeviceLogin.PollsAreBounded` | packages/oauth/src/oauth-manager.ts:408-446 | one device code takes at most ceil(timeout / 1000) polls, fewer when the interval is longer |
| `DeviceLogin.PollDeviceCode` | packages/oauth/src/oauth-manager.ts:416-446 | the inner loop ends, keeps that pace, stores the token exactly on success, and each outcome is the one the last answer calls for |
| `DeviceLogin.Login` | packages/oauth/src/oauth-manager.ts:406-457 | every device code keeps pace with the one overall deadline; codes are replaced only when they expire and the deadline has not passed; each outcome is the one the last answer of the last code calls for; time-out only at or after the deadline |
| `MessageParts.StreamPart.MergeInPlace` | packages/kosong/src/message.ts:141-172 | the in-place merge succeeds and leaves exactly the merged part for text on text, think on an unsigned think, a delta on a call; otherwise the target is untouched |
| `MessageParts.MergeKeepsAtoms` | packages/kosong/src/message.ts:141-158 | a merge concatenates characters and keeps the signature at the end of its block |
| `Generate.FlushPart` | packages/kosong/src/generate.ts:264-289 | content and calls are appended, the call's stream index is registered at its position, an orphaned delta is dropped |
| `Generate.Generate` | packages/kosong/src/generate.ts:90-206 | the loop over any stream ends with the assembly the specification defines, or with the empty or think-only error |
| `GenerateProofs.ContentIsConserved` | packages/kosong/src/generate.ts:114-164 | for every stream the final content read character by character, signatures and attachments included, is the stream's own content in order |
| `GenerateProofs.OneCallPerHeader` | packages/kosong/src/generate.ts:114-164 | for every stream there is one tool call per header, in order, with its id, name and extras |
| `GenerateProofs.FailureDependsOnStreamOnly` | packages/kosong/src/generate.ts:166-196 | empty iff the stream holds nothing but deltas; think-only iff it thinks, opens no call and all its text is white space, which is listed |
| `GenerateProofs.ParallelRouting` | packages/kosong/src/generate.ts:114-164 | for every stream the k-th call has the header's id, name and extras, and as arguments the header's followed by the texts of its own deltas in order, none iff all of these are missing; a delta belongs to the latest header with its index, else to the header still open |
| `GenerateProofs.InterleavingDoesNotMatter` | packages/kosong/src/generate.ts:123-142 | two streams with the same headers and the same deltas per header give the same tool calls |
| `GenerateContent.MergedIff` | packages/kosong/src/message.ts:141-172 | which two parts merge, and into what, written out |
| `GenerateContent.ContentComesInBlocks` | packages/kosong/src/generate.ts:114-164 | for every stream: headers and ownerless deltas cut the content; between cuts each run of joining parts, as long as it can be, is one part |
| `Utf8.WellFormedIsTheGrammar` | packages/kaos/src/internal.ts:7-82 | the recogniser accepts exactly the concatenations of RFC 3629 characters, which are exactly the encodings of texts |
| `Utf8.EncodeOneRoundTrip` | packages/kaos/src/internal.ts:21-76 | the masks and shifts read back every scalar from its encoding, whatever follows |
| `Utf8.DecodeOneRoundTrip` | packages/kaos/src/internal.ts:21-76 | a decoded character re-encodes to its own bytes |
| `Utf8.DecodeUtf8Ignore` | packages/kaos/src/internal.ts:7-82 | the loop decodes every character and drops every byte that starts none |
| `Utf8.DecodeInvertsEncode` | packages/kaos/src/internal.ts:7-82 | decoding the encoding of any text gives the text |
| `Utf8.ReencodeIffWellFormed` | packages/kaos/src/internal.ts:7-82 | re-encoding the output gives the input back iff the input was well-formed |
| `Utf8.DecoderOnlyDrops` | packages/kaos/src/internal.ts:7-82 | on any bytes the re-encoded output is a subsequence of the input |
| `Characters.EncodingTable` | packages/kaos/src/internal.ts:21-76 | how many bytes a scalar takes and how its value is made up of them, in numbers |
| `Characters.DecodesWhatOccurs` | packages/kaos/src/internal.ts:7-82 | on any bytes the output is every scalar whose encoding begins anywhere in them, in order, and nothing else |
| `Utf8.DecodeAtSafeCut` | packages/kaos/src/internal.ts:7-82 | decoding and well-formedness split at any cut next to an ASCII byte |
| `Utf8Validator.PassesIffWellFormed` | packages/kaos/src/local.ts:811-862 | the validator's automaton accepts exactly the well-formed byte sequences |
| `Utf8Validator.ThrowIsFinal` | packages/kaos/src/local.ts:811-862 | once it throws, no continuation of the input is well-formed |
| `Utf8Validator.Validator.Write` | packages/kaos/src/local.ts:821-857 | however the input is cut into chunks, the object holds the automaton's state for all bytes so far, and throws as soon as there is none |
| `Utf8Validator.Validator.End` | packages/kaos/src/local.ts:858-860 | the end is accepted iff all bytes written are well-formed |
| `Utf16.DecodeUtf16LeIgnore` | packages/kaos/src/internal.ts:84-121 | the loop decodes units and surrogate pairs and drops unpaired surrogates and an odd byte |
| `Utf16.DecodeInvertsEncode16` | packages/kaos/src/internal.ts:84-121 | decoding the UTF-16LE encoding of any text gives the text, and encodings are well-formed |
| `Utf16.Reencode16IffWellFormed` | packages/kaos/src/internal.ts:84-121 | the input comes back iff it has no unpaired surrogate and no odd byte |
| `Characters.EncodingTable16` | packages/kaos/src/internal.ts:84-121 | units low byte first, and the value of a surrogate pair, in numbers |
| `Characters.DecodesWhatOccurs16` | packages/kaos/src/internal.ts:84-121 | on any bytes the output is every scalar whose encoding begins at an even position, in order, and nothing else |
| `Utf16.Decoder16OnlyDrops` | packages/kaos/src/internal.ts:84-121 | on any bytes the re-encoded output is a subsequence of the input |
| `Lines.SplitLinesKeepingTerminator` | packages/kaos/src/local.ts:771-783 | the loop yields the lines of the text, each but perhaps the last ending in its only line feed |
| `Lines.SplitMakesLines` | packages/kaos/src/local.ts:771-783 | every piece is nonempty with a line feed at most at its end, and only the last may lack one |
| `Lines.SplitConcat` | packages/kaos/src/local.ts:771-783 | a cut behind a line feed cuts between lines |
| `Lines.LineCount` | packages/kaos/src/local.ts:490-522 | the number of lines is the number of line feeds, plus one for an unterminated rest |
| `Scanner.LineEndingFlags.Update` | packages/kaos/src/local.ts:785-809 | after each chunk the flags describe all bytes so far, pairs across chunks included, a final CR still open |
| `Scanner.ScanTextFile` | packages/kaos/src/local.ts:490-526 | for every cutting the scan reports the line count, final newline, NULs and line-ending kinds of the whole file, and fails iff it is not well-formed UTF-8 |
| `LineReader.ReadUtf8Lines` | packages/kaos/src/local.ts:588-643 | for every cutting, mode and range (all integers) the yielded texts are the decoded lines of the byte-level split from line `startLine`, counted from 1, `maxLines` at most, up to the first that cannot be decoded |
| `LineProofs.RangeMeans` | packages/kaos/src/local.ts:588-643 | against a full read: lines s to s+m-1 are the slice from s-1 to s-1+m, cut off at the end; a start below 1 means 1, a maximum below 1 still lets one line through |
| `LineProofs.LinesEndInLineFeeds` | packages/kaos/src/local.ts:605-620 | the lines of bytes and of texts make up the whole, with U+000A at the end of each but perhaps the last and nowhere else |
| `LineProofs.TextsMean` | packages/kaos/src/local.ts:462-488 | a strict read fails iff the bytes encode no text, otherwise it gives the text they encode, without the bytes EF BB BF at the start of the file only |
| `LineReader.LineFromPieces` | packages/kaos/src/local.ts:613-615 | pending pieces plus this chunk's piece are exactly the bytes of the line |
| `LineProofs.RangeIsSlice` | packages/kaos/src/local.ts:528-538 | a range is the matching slice of all the lines |
| `LineProofs.DecodeJoins` | packages/kaos/src/local.ts:588-643 | decoding the lines from any point on as one piece gives their texts joined, and fails iff one of them does; a byte order mark is stripped only at the start of the file |
| `LineProofs.LinesJoinToText` | packages/kaos/src/local.ts:462-488 | reading by lines fails iff reading the whole text fails, and otherwise the lines joined are the text |
| `LineProofs.SplitFindsLines` | packages/kaos/src/local.ts:771-783 | splitting the joined texts finds the same lines, save that an empty last text is none |
| `TailReader.ScanBlock` | packages/kaos/src/local.ts:568-576 | one backward block counts its line feeds and stops right behind the one that makes the count full |
| `TailReader.CutFindsTail` | packages/kaos/src/local.ts:552-579 | the bytes behind the place where the scan stops are the last min(n, total) lines |
| `TailReader.ReadTailLines` | packages/kaos/src/local.ts:540-586 | for every block size the result is the decoding of those lines, split again, or the strict error |
| `TailReader.TailEqualsSuffix` | packages/kaos/src/local.ts:540-586 | the tail is the last n lines as the forward reader decodes them iff the last line does not decode to nothing |
| `TailReader.TailFailsIff` | packages/kaos/src/local.ts:540-586 | the tail fails iff one of the last n lines cannot be decoded |
| `TailReader.TailIsLastOfReadLines` | packages/kaos/src/local.ts:540-586 | against a full read: the last n texts iff the last line does not decode to nothing; otherwise those without the empty last one |
| `TailReader.HollowIsLoneBom` | packages/kaos/src/local.ts:580-582 | in strict mode the one exceptional file is the lone byte order mark |
| `TailReader.HollowIffNoCharacter` | packages/kaos/src/local.ts:580-582 | in ignore mode the exceptional files are those in whose last line no character starts at any byte |
| `TailReader.StrayByteIsHollow` | packages/kaos/src/local.ts:580-582 | a single stray byte is such a file: one empty line read forward, none from the tail |
| `GlobWalk.WalkGraph` | packages/kaos/src/local.ts:339-445 | the recursive walk ends on every finite graph, cycles included, in which no chain of inode-less directories comes back to its beginning, and yields the specified paths in order |
| `GlobWalk.Glob` | packages/kaos/src/local.ts:294-317 | the walk starts with the base directory marked, if it has an inode |
| `GlobProofs.WalkIsExact` | packages/kaos/src/local.ts:339-445 | a path is found iff it matches the pattern declaratively and no directory it enters can be recognised as entered before |
| `GlobProofs.GlobIsExact` | packages/kaos/src/local.ts:294-445 | the same for a whole glob, the base counted among the directories entered |
| `GlobProofs.DescendsIffNoRepeat` | packages/kaos/src/local.ts:319-338 | the path-local visited set stops exactly the descents along which a directory with an inode repeats or was marked |
| `GlobProofs.EndsIffNoInodelessCycle` | packages/kaos/src/local.ts:331-338 | what `**` finds is finite from every directory, and listed by the walk, iff no chain of inode-less directories comes back to its beginning |
| `GlobOrder.WalkInOrder` | packages/kaos/src/local.ts:339-445 | with at most one `**` the paths come in this order: what `**` finds without descending first, then by the place of the first name in the listing, then as in the directory below |
| `GlobProofs.LengthsFit` | packages/kaos/src/local.ts:339-445 | a found path has one name per segment, and with `**` at least one per other segment |
| `GlobProofs.WalkIsDistinct` | packages/kaos/src/local.ts:351-404 | with distinct entry names and at most one `**` no path is yielded twice |
| `GlobRepeats.NeverRepeatsIff` | packages/kaos/src/local.ts:351-443 | for each way of matching names, over all directories with names as listings hold them and all starts: a pattern yields no path twice iff it has at most one `**` or a segment that no such name matches |
| `GlobRepeats.DeadWalkIsEmpty` | packages/kaos/src/local.ts:406-443 | a pattern with a segment that no name in a listing matches yields nothing |
| `SshGlob.UndottedMeans` | packages/kaos/src/ssh.ts:670-696 | exactly the entries named `.` and `..` are skipped |
| `SshGlob.SshWalkGraph` | packages/kaos/src/ssh.ts:634-705 | the remote walk skips the dot entries and ends on a symlink-free tree |
| `SshGlob.WalksAgree` | packages/kaos/src/ssh.ts:634-705 | on such a tree the remote walk yields the same sequence as the local one with its visited set |
| `SshGlob.GlobsAgree` | packages/kaos/src/ssh.ts:619-632 | the same for the two globs from one base directory |
| `Shell.BuildExecCommand` | packages/kaos/src/ssh.ts:894-923 | the command line is built, or the first invalid variable name is rejected |
| `Shell.NameIff` | packages/kaos/src/ssh.ts:903-909 | an accepted name is a letter or underscore, then letters, digits and underscores |
| `Shell.QuoteForm` | packages/kaos/src/ssh.ts:114-120 | an argument of letters, digits and the listed marks is printed bare, any other in single quotes, each quote of its own written as close, double-quoted quote, open |
| `Shell.LineForm` | packages/kaos/src/ssh.ts:894-923 | the line is the assignments and the quoted arguments with one blank in between, behind `cd`, the directory and `&&` if there is one |
| `Shell.QuotedReadsBack` | packages/kaos/src/ssh.ts:114-120 | a quoted argument reads back as itself wherever in a word it stands and whatever follows |
| `Shell.CommandReadsBack` | packages/kaos/src/ssh.ts:894-923 | POSIX token recognition and quote removal give `cd`, the directory, `&&`, the assignments and exactly the arguments, with nothing expanded |
| `WireId.DecimalIsInjective` | packages/acp-adapter/src/events-map.ts:87-89 | different turn numbers print differently |
| `WireId.WireIdForm` | packages/acp-adapter/src/events-map.ts:87-89 | a wire id is the turn in decimal without leading zeros, a colon and the raw id |
| `WireId.WireIdIsInjective` | packages/acp-adapter/src/events-map.ts:87-89 | two wire ids are equal iff turn and raw id are, whatever characters the raw ids contain |
| `AcpTurn.TurnBridge.OnEvent` | packages/acp-adapter/src/session.ts:928-1175 | the listener handles an event exactly as `Handle` specifies, testing `settled` only in the two branches that do; what a whole prompt then answers and sends is `FirstEndingAnswers` and `SendsExactly` |
| `AcpTurn.TurnBridge.DeliverEvent` | packages/acp-adapter/src/session.ts:928-1175 | an event reaches the listener exactly while it is subscribed |
| `AcpTurn.TurnBridge.ToolCallStarted` | packages/acp-adapter/src/session.ts:1004-1062 | a started event creates its card or upgrades the one a delta created, seeds the accumulator, and adds a plan if it has one |
| `AcpTurn.TurnBridge.ToolCallDelta` | packages/acp-adapter/src/session.ts:1063-1105 | a first delta creates the card, a later one sends the accumulated text |
| `AcpTurn.TurnBridge.KickRejected` | packages/acp-adapter/src/session.ts:1177-1182 | a failed kick answers and unsubscribes an unsettled prompt and changes nothing else |
| `AcpTurnProofs.CreateOnceBeforeUpdates` | packages/acp-adapter/src/session.ts:1004-1105 | for every event sequence no wire id is created twice and every update from a delta or started event follows its create |
| `AcpTurnProofs.EveryToolEventHasItsCard` | packages/acp-adapter/src/session.ts:1004-1105 | every delta or started event before settlement has its create among the notifications |
| `AcpTurnProofs.OpenExactlyWhile` | packages/acp-adapter/src/session.ts:928-1182 | the prompt is open iff no main-agent turn end, no kick failure and no busy error before an own turn has occurred |
| `AcpTurnProofs.AnsweredAtMostOnce` | packages/acp-adapter/src/session.ts:897-1182 | over all event sequences resolve or reject is called at most once, and the flag, the subscription and the promise always agree |
| `AcpTurnProofs.SettlesOnce` | packages/acp-adapter/src/session.ts:974-1182 | after the promise is answered nothing is sent or changed, although most branches never look at the flag |
| `AcpTurnOutcome.FirstEndingAnswers` | packages/acp-adapter/src/session.ts:951-1182 | over all inputs the first that ends the prompt decides its answer, by a table: completed or failed gives `end_turn`, cancelled `cancelled`, filtered `refusal`, an authentication failure, a busy error before an own turn and a failed kick reject |
| `AcpTurnOutcome.SendsExactly` | packages/acp-adapter/src/session.ts:974-1131 | over all inputs every notification sent, in order and with all fields: text and thought chunks, creates, updates, titles, statuses, plans; nothing behind the ending input |
| `AcpTurnOutcome.TracksTheTurn` | packages/acp-adapter/src/session.ts:944-950 | while the prompt is open the current turn is that of the last main-agent event that carries one |
| `AcpTurnOutcome.EndingCleansUp` | packages/acp-adapter/src/session.ts:951-1182 | an event that ends the prompt clears accumulator, cards and turn; a failed kick does not |
| `AcpTurnTexts.RunAgrees` | packages/acp-adapter/src/session.ts:1004-1131 | the text every card shows, the created set and the accumulator are functions of the delta, started and result events alone |
| `AcpTurnTexts.CardIffSeen` | packages/acp-adapter/src/session.ts:1004-1131 | while the prompt is open the client has a card for a wire id iff a delta or started event of that call has come |
| `AcpTurnTexts.ShowsOwnText` | packages/acp-adapter/src/events-map.ts:197-217 | before its started event a call that no other turn interrupts shows all its parts so far, joined, unless a result comes behind the last of them |
| `AcpTurnTexts.ShowsOwnTextIff` | packages/acp-adapter/src/session.ts:1063-1131 | over all texts and outputs, the card shows exactly its own parts iff no other turn uses the same raw id between two events of the call and no result of the call comes behind the last of them |
| `AcpTurnTexts.ClientShowsAllPartsSoFar` | packages/acp-adapter/src/session.ts:1004-1131 | in a whole prompt the notifications sent, results included, show all parts so far of a call that is neither interrupted nor overwritten by a result |
| `AcpTurnTexts.ClientShowsOwnTextIff` | packages/acp-adapter/src/session.ts:1004-1131 | over all prompts whose delta, started and result events have a given shape, the notifications sent show exactly the call's own parts iff no other turn uses the same raw id between two events of the call and no result of the call comes behind the last of them |
| `AcpTurnTexts.InterruptedCardShows` | packages/acp-adapter/src/session.ts:1063-1096 | for any texts, an interrupted card shows what the last event by which another turn disturbed the call found under the raw id, that event's whole part, and the call's own parts since |
| `AcpTurnTexts.InterruptedPromptShows` | packages/acp-adapter/src/session.ts:1063-1096 | the same for the notifications of a whole prompt |
| `AcpReplay.Replayer.ReplayMessage` | packages/acp-adapter/src/session.ts:575-647 | one message makes the pushes `ReplayOne` specifies, in order, up to the first that fails; which they are is `MessageSends` |
| `AcpReplay.Replayer.ReplayHistory` | packages/acp-adapter/src/session.ts:537-565 | a failed push ends its message, never the replay |
| `AcpReplayContent.UptoIsPrefix` | packages/acp-adapter/src/session.ts:554-565 | what is sent of a message is a prefix that only its last push can have failed in, and that push did fail if the prefix is not all |
| `AcpReplayContent.MessageSends` | packages/acp-adapter/src/session.ts:585-647 | a message sends, up to its first failing push, a chunk per nonempty part, then a create per call with its name and arguments, or its result |
| `AcpReplayOwners.ReplaysExactly` | packages/acp-adapter/src/session.ts:537-647 | the same over whole histories, whatever pushes fail, results owned by the latest message that got to record their call |
| `AcpReplayOwners.NothingIsLeftOut` | packages/acp-adapter/src/session.ts:585-611 | when no push fails, the chunks sent are exactly the nonempty parts of all user and assistant messages in order, and the creates exactly their calls |
| `AcpReplayProofs.UpdatesFollowTheirCreate` | packages/acp-adapter/src/session.ts:554-647 | whatever pushes fail, every attempted result follows an attempted create with the same wire id, and created wire ids are distinct when ids within a message are |
| `AcpReplayProofs.ResultGoesToLatestIssuer` | packages/acp-adapter/src/session.ts:612-640 | when pushes succeed, a result goes to the latest assistant message before it that issued its id, and is skipped if there is none |
| `AcpReplayOwners.ResultGoesToLatestOwner` | packages/acp-adapter/src/session.ts:600-640 | whatever pushes fail, a result goes to the latest assistant message before it that issued its id and all whose pushes in front of that call went through, and is skipped if there is none |
| `AcpReplayDelivery.DeliveredCreateIff` | packages/acp-adapter/src/session.ts:554-640 | for any failing pushes, a result has a delivered create in front of it iff the push of the first create of its wire id went through |
| `AcpReplayDelivery.ResultWithoutCard` | packages/acp-adapter/src/session.ts:606-640 | a concrete history and failure in which a result is sent to a client that never got the create |

## Left out

- Files, sockets, processes and SSH transport: a file is a byte sequence read in arbitrary nonempty chunks, a directory tree a finite graph, the token file an atomic register, the clock and the server's answers arbitrary.
- Lock staleness, crashes, a save that fails after a redeem, a disabled lock, and login or logout racing a refresh: the rotation invariants are not meant to hold there.
- `RefreshProtocol`: a redeem that fails for any other reason than a rejection leaves the server as it was (a reply lost after the server rotated is not modelled), and the retries inside one redeem (`packages/oauth/src/oauth.ts:201-271`), which send the same token again, count as one step.
- `RefreshProtocol` starts from a file holding the one token the server has issued, and refresh observers are not modelled.
- JavaScript numbers that are not integers (a fractional or NaN interval, line number or count); token times and polling intervals are reals without rounding.
- `DeviceLogin.Login`: the device codes the server hands out are a finite list given beforehand, because nothing bounds how many codes may expire at once; running out of them is an outcome of its own. Errors of the device-code request and of the save are not modelled.
- `replace` decoding, encodings other than UTF-8 and UTF-16LE, and `TextDecoder` itself: strict decoding is specified by RFC 3629 well-formedness with the byte order mark stripped as the flag asks.
- Text is a sequence of Unicode scalars, not of UTF-16 code units, and the decoders' masks and shifts are written as remainders and products on the ranges where they agree.
- Callbacks, aborts and provider metadata in `generate`.
- `globPatternToRegex`: matching one segment is an arbitrary predicate on the segment and the name. Paths are lists of names; joining and rendering them is not modelled, and `**` as the whole base path is the empty list.
- `GlobOrder.WalkInOrder`: patterns with several `**`, which may yield a path more than once, have no such order; for them the yielded sequence is the specification's.
- `GlobWalk.WalkGraph`: requires that no chain of inode-less directories comes back to its beginning, where the source does not end either, and that a name a listing repeats stands for one target.
- `SshGlob.SshWalkGraph`: only symlink-free trees, because the remote walk has no protection against a cycle. The refusal of case-insensitive remote globs is not modelled.
- `Shell.CommandReadsBack`: token level only, not command lookup, alias substitution or reserved words.
- `AcpTurn` abstracts diff and plan rendering of a tool's display, the parsed `rawInput` copy of the arguments and the rendering of results into given texts; the approval handler that reads the current turn is not modelled.
- `AcpTurnProofs.CreateOnceBeforeUpdates`: progress and result updates are sent whether or not a create went out, as in the source, so it says nothing about them; `AcpTurnTexts.CardIffSeen` says when there is one.
- A missing resume state, and the prompt queueing around a turn, in the ACP session.
- Configuration schemas, provider aliases, telemetry, migrations and user-interface code: they would only add easy members.
