# BSL Router: a model of its stateful core

This project models the parts of BSL Router that keep state across requests or convert
between formats, and proves what every run of them keeps. It is plain Dafny 4.11;
`dafny verify dfyconfig.toml` verifies all of it.

| file | models |
|---|---|
| `EventStream.dfy` | the AWS binary event-stream decoder (`app/kiro_eventstream.py`) |
| `SseLines.dfy`, `CodexStream.dfy`, `CodexBuffered.dfy`, `CodexMessage.dfy` | the two consumers of a Codex event stream, and what they make of it (`app/codex_adapter.py`) |
| `Responses.dfy`, `Gemini.dfy` | Responses bodies and Gemini contents through the canonical form and back (`app/normalizer_v2.py`) |
| `CodexRequest.dfy` | the direct chat-to-Responses converter against the canonical path |
| `Asar.dfy` | packing and unpacking ASAR archives (`app/antigravity_patcher.py`) |
| `Refresh.dfy`, `SaveConnection.dfy` | concurrent token refresh; saving a connection in place (`app/oauth.py`) |
| `BanLadder.dfy`, `Breaker.dfy`, `Watchdog.dfy` | progressive bans, the circuit breaker, the process supervisor |
| `Affinity.dfy`, `SessionPool.dfy` | the bounded affinity store and the selection built on it (`app/oauth_antiban.py`) |
| `Paging.dfy` | keyset paging over the usage table (`app/observability.py`) |
| `Prelude.dfy`, `Json.dfy` | options, results, bytes, sequence facts; JSON values |

Code that loops or assigns is a method with loop invariants, or a class whose methods state
their whole new state; each is tied to a specification function, and the theorems are about
that function. A method over chunks that equals a function of `Flatten(chunks)` is itself the
statement that chunk boundaries do not matter. Coroutines that interleave are a state machine
whose steps are the code between two suspension points. A run is a finite list of events.

Time is an input that never goes back. JSON encoding, SHA-256, `bytes.decode`, `int` and `str`,
SQLite's `LIKE` and `LOWER`, token endpoints, health probes and process control are functions or
inputs; each module's `Env` names the ones it uses, and `Lawful` states what is assumed of them.

## Where the code does less than is said of it

- The event-stream decoder promises to handle arbitrary byte boundaries
  (app/kiro_eventstream.py:144-145). A bad frame discards the good frames found before it in the
  same call, so boundaries matter exactly on streams where a bad frame follows a good one.
- Refreshes of a provider are said to keep a minimum gap (app/oauth.py:2619-2620). The admin and quota
  paths clear the recorded start (app/main.py:19879, app/main.py:19914); across such a clearing two
  refreshes can start at the same instant.
- The rollback comment says memory matches disk exactly (app/oauth.py:1183-1184). The kept row is written
  back at its index before the deletions: exact only if the freshest match is the first match, else
  an unrelated row is lost or the handler itself raises.
- The ban guard says an active ban is never shortened (app/error_prevention.py:371-392). The ladder
  itself shortens it unless the configured durations grow from rung to rung and disabling is on.
- The supervisor says it never respawns after exit code 0 (app/watchdog.py:17-20). A child that exits
  cleanly between the poll and the kill of its third failed probe is respawned.
- The direct converter is meant to mirror the canonical path (app/codex_adapter.py:93-96). The two bodies
  agree on exactly the histories of `CodexRequest.Ordinary` messages with at most one system message:
  arguments that are no string, or stand beside the function, already differ, and two system texts are
  joined by a blank line on one path and by nothing on the other.
- The assembler puts the streamed text in front of the final response's own output
  (app/codex_adapter.py:815-828), so a response that lists its message has its text twice.
- Following the paging cursor with a limit of 0 returns nothing, and a negative limit returns all rows
  and still claims that there are more. A start cursor with an id but no
  timestamp lets later pages return rows it had excluded, unless the ids of all later rows lie below it.

## Model

| member | source | states |
|---|---|---|
| EventStream.ParseHeaders | app/kiro_eventstream.py:23-57 | the position-advancing loop reads exactly the header map the type table defines, and stops at the first entry it cannot read |
| EventStream.HeadersRoundTrip | app/kiro_eventstream.py:23-57 | every header list a sender can write, of every supported type, parses back to what was assigned, later entries winning |
| EventStream.ParseFrames | app/kiro_eventstream.py:60-83 | the loop returns the complete frames and the undecoded rest, or nothing and the whole buffer after a bad frame |
| EventStream.FramesRoundTrip | app/kiro_eventstream.py:60-83 | well-formed frames followed by a proper prefix of another parse to exactly those events and exactly that prefix |
| EventStream.BadExactly | app/kiro_eventstream.py:66-79 | from 16 bytes on a frame is bad exactly when its four length bytes announce fewer than 16 or more than 16,000,000 bytes, or it is complete and announces more header bytes than it can hold |
| EventStream.ScanResumes | app/kiro_eventstream.py:60-83 | scanning may stop at any byte and resume there once more bytes have arrived |
| EventStream.Decoder.Feed | app/kiro_eventstream.py:141-168 | one chunk adds to the events what draining the carried buffer plus the chunk yields, and carries the rest |
| EventStream.CleanChunking | app/kiro_eventstream.py:141-168 | on streams without bad frames every chunking gives the same events and remainder as one call |
| EventStream.BadStartChunking | app/kiro_eventstream.py:141-168 | a stream that opens with a bad frame yields nothing however it is cut |
| EventStream.CutKeepsWhatOneCallLoses | app/kiro_eventstream.py:72-73 | when a bad frame follows good ones, cutting after the first frame gives another result than one call |
| EventStream.ChunkingIrrelevantExactly | app/kiro_eventstream.py:141-168 | all chunkings of a stream agree if and only if no bad frame follows a good one |
| EventStream.SniffAgreesWithParser | app/kiro_eventstream.py:86-92 | for any stream of at least 16 bytes, the sniff accepts exactly those whose first frame the parser will not call bad, now or once the announced length has arrived |
| EventStream.DecodeSniffed | app/kiro_eventstream.py:178-197 | bytes consumed by the sniff are decoded too: the binary lane decodes the stream from its first byte |
| SseLines.SentGrows | app/codex_adapter.py:421-488 | events already dispatched are never taken back by later lines |
| SseLines.SameDispatches | app/codex_adapter.py:763-793 | on a newline-terminated stream the streaming and the buffering line machine dispatch the same events |
| SseLines.WrittenIsRead | app/codex_adapter.py:442-487 | whatever events a sender writes as `event:` and `data:` lines, spaced or not, with either line end and other lines between, both consumers dispatch exactly those that carry data, under their stripped names, with their data joined in order |
| SseLines.UnfinishedIsRead | app/codex_adapter.py:472-487 | a last event whose blank line is missing is dispatched too |
| SseLines.CutOffIsRead | app/codex_adapter.py:788-793 | a last line that is not even ended is read by the buffering consumer and not by the streaming one |
| CodexStream.ResponsesSseToOpenAiSse | app/codex_adapter.py:421-488 | for every chunking, the chunks sent and whether it raised are a function of the concatenated bytes alone |
| CodexStream.RoleFirstAndOnce | app/codex_adapter.py:470-496 | the role chunk goes out exactly once, first, and only before another chunk |
| CodexStream.RaisedIsFinal | app/codex_adapter.py:421-488 | what was sent when a conversion raised is final, whatever bytes follow |
| CodexStream.LedgerStep | app/codex_adapter.py:639-667 | one tool event keeps the ledger in step with all tool deltas sent so far |
| CodexStream.IndexesIdentifyCalls | app/codex_adapter.py:639-667 | over any stream two tool deltas share an index exactly when they carry the same call id |
| CodexStream.KeysEqualExactly | app/codex_adapter.py:639-656 | two call ids are the same dictionary key exactly when they are equal or one is the other's truth value as a number |
| CodexStream.StreamMeans | app/codex_adapter.py:421-680 | for every byte string: each event, up to the first that raises, becomes the content, reasoning, tool, error or finish chunk its literal name calls for (call index, id, name and arguments, error text and finish reason included), and they go out in order behind one role chunk |
| CodexStream.WrittenStreamMeans | app/codex_adapter.py:421-680 | the same told of the events a sender writes, whatever unfinished line follows them |
| CodexBuffered.AssembleResponsesFromSse | app/codex_adapter.py:683-846 | for every chunking, the assembled message depends only on the concatenated bytes |
| CodexBuffered.ProcessLine | app/codex_adapter.py:763-776 | one line moves the parser state and the accumulators as the line machine and the event meaning say |
| CodexBuffered.ResponsesJsonToOpenAi | app/codex_adapter.py:330-414 | the output list becomes content and tool calls in order |
| CodexMessage.GatherOf | app/codex_adapter.py:705-761 | for every list of events the accumulators hold exactly the texts, calls, reasoning, response and error each gave under its literal name, in order, and an exception comes from the first item that cannot be read |
| CodexMessage.AssembledMessage | app/codex_adapter.py:795-846 | whatever output the response brings, the message is the accumulated text and then its own text, its own calls and then the accumulated calls it does not list; and exactly when assembling raises |
| CodexMessage.AssembledResponse | app/codex_adapter.py:795-846 | the assembled response has the fields of the last one received, or of the empty one, the stream's error where it has none of its own, and as output its own items with a reasoning item behind them unless they have one, the text in front and the unlisted calls at the end |
| CodexMessage.OutputMeans | app/codex_adapter.py:338-362 | an output list reads as the texts of its messages and its named calls, in order, or raises exactly when some message cannot be read |
| CodexMessage.NoCallTwice | app/codex_adapter.py:836-844 | no call id occurs twice in the message unless the stream or the output repeats one |
| CodexMessage.BufferedMeans | app/codex_adapter.py:683-846 | for every byte string, content and calls of the message told from the events: spoken texts, then the texts of the final output; its calls, then those of the stream it does not list |
| CodexMessage.ConsumersAgree | app/codex_adapter.py:522-846 | on newline-terminated quiet streams, whatever the final output: streaming raises nothing, buffering exactly where that output cannot be used; the buffered calls are the output's and then the streamed ones it does not list; the contents are equal if and only if the output has no text and some text came as deltas or none came at all |
| CodexRequest.OpenAiToResponses | app/codex_adapter.py:97-165 | the loop over the history gives the direct items, message by message, and the joined system texts |
| CodexRequest.IngressOpenAiChat | app/normalizer_v2.py:113-165 | the loop over the history gives the canonical turns and system parts, message by message |
| CodexRequest.CallsAgree | app/codex_adapter.py:126-152 | two renderings of a call list agree exactly when every call has its own id and function name, and arguments that are a string inside the function, missing, or an empty object |
| CodexRequest.MessageAgreesExactly | app/codex_adapter.py:97-159 | both paths tell the model the same about a message if and only if the message is ordinary |
| CodexRequest.HistoriesAgreeExactly | app/normalizer_v2.py:654-707 | the texts, calls and results of a whole history are the same, in the same order, on both paths if and only if every message is ordinary: no two differences cancel out |
| CodexRequest.BodiesAgreeExactly | app/codex_adapter.py:161-175 | items and instruction text agree if and only if every message is ordinary and at most one is a system message |
| CodexRequest.MessageIsTold | app/codex_adapter.py:97-159 | what the direct path tells of any message: texts under their roles, results under their ids or as texts marked as results, and every named call with its id, name and arguments |
| CodexRequest.EmptyTextExactly | app/codex_adapter.py:110-159 | an empty text goes out exactly for a message without text that has nothing else to say |
| CodexRequest.JoinedByBlankLines | app/codex_adapter.py:161-165 | the system texts are joined by blank lines |
| CodexRequest.PromptIsJoined | app/normalizer_v2.py:506-508 | the canonical path joins the system and developer texts by nothing |
| Responses.IngressResponses | app/normalizer_v2.py:236-292 | a string, a list or anything else as input gives system parts, turns and kept reasoning items; a non-empty string reads as one user message |
| Responses.EgressResponses | app/normalizer_v2.py:654-707 | the turn loop with its reasoning counter gives the output items, buffering parts into messages |
| Responses.ItemsKept | app/normalizer_v2.py:244-292 | one pass rewrites known input item by item, in place and in order, through all buffering and reasoning counting |
| Responses.ReasoningKept | app/normalizer_v2.py:660-707 | without a top-level override the k-th reasoning item that comes back is verbatim the k-th that went in |
| Responses.OverrideRewrites | app/normalizer_v2.py:660-704 | with a top-level reasoning_items key the input is still rewritten item by item in order, the k-th reasoning item being the key's k-th entry or, past its end, a new summary |
| Responses.OverrideKeepsExactly | app/normalizer_v2.py:660-704 | the reasoning items survive such a key if and only if it agrees with them as far as it goes and the summaries invented past its end equal the missing ones |
| Responses.OverrideLosesReasoning | app/normalizer_v2.py:660-664 | a concrete body whose reasoning item is lost to such a key |
| Responses.PartComesBack | app/normalizer_v2.py:185-233 | a text part comes back with its text; a data URL with its payload and media type, an image or file with its URL, a file with its name; and what becomes of each that does not |
| Responses.BodyComesBack | app/normalizer_v2.py:236-292 | the items that come back are those that went in without system, developer and empty messages, in order, each telling what it told; the instruction text is the incoming one followed by the texts of the system and developer messages |
| Responses.PromptComesBack | app/normalizer_v2.py:244-247 | a plain string as input comes back as one user message with that text |
| Responses.TurnsAreSpoken | app/normalizer_v2.py:244-292 | in the canonical form a message keeps its role, results are the user's and all else is the assistant's |
| Responses.SplitRebuilt | app/normalizer_v2.py:54-61 | a rebuilt data URL splits into the same payload, and into its media type up to a semicolon |
| Responses.SplitRebuiltWithComma | app/normalizer_v2.py:54-61 | with a comma in the media type the payload no longer comes back |
| Responses.FileTwice | app/normalizer_v2.py:185-233 | a file part is settled after one pass if and only if it is stable |
| Responses.PartTwice | app/normalizer_v2.py:185-233 | a known part is settled after one pass if and only if it is stable |
| Responses.TwiceIsOnceExactly | app/normalizer_v2.py:236-292 | normalising a body twice equals normalising it once if and only if every file part is stable |
| Gemini.IngressParts | app/normalizer_v2.py:369-428 | the part loop gives the canonical parts with each bare signature attached to the part before it, or raises |
| Gemini.EgressParts | app/normalizer_v2.py:813-860 | the canonical part loop emits each part and re-emits its signature after it |
| Gemini.PartRoundTrip | app/normalizer_v2.py:369-428 | a single part comes back unchanged if and only if it is faithful |
| Gemini.PartComesBack | app/normalizer_v2.py:768-778 | what comes back of every part, faithful or not, and that it raises exactly where a true value stands for an object |
| Gemini.MediaMeans | app/normalizer_v2.py:340-352 | media keep data, URL and type, count as images exactly by their type, and go out inline, by reference or as text |
| Gemini.RoundTripExactly | app/normalizer_v2.py:813-860 | a part list comes back unchanged, signatures included, if and only if it is in normal form |
| Gemini.SignatureInsidePartIsLost | app/normalizer_v2.py:369-428 | a signature carried inside a function call part does not come back |
| Gemini.ContentsRoundTripExactly | app/normalizer_v2.py:354-428 | the contents of a body come back unchanged if and only if no role is already canonical and every part list is in normal form |
| Gemini.RolesMean | app/normalizer_v2.py:354-368 | the model of Gemini is the canonical assistant, and the other way round; other roles stay |
| Asar.Packer.Visit | app/antigravity_patcher.py:99-118 | the recursive visitor and its shared offset and chunks give the rewritten tree and the payload |
| Asar.PackAsar | app/antigravity_patcher.py:94-122 | the archive written is the size fields, the header text, its padding and the payload, or a size overflow |
| Asar.Unpacker.Visit | app/antigravity_patcher.py:81-91 | the recursive visitor collects the files in order and raises at the first bad entry |
| Asar.UnpackAsar | app/antigravity_patcher.py:71-91 | every malformed front is rejected, and a good one is read entry by entry |
| Asar.FrontRoundTrip | app/antigravity_patcher.py:119-122 | the four little-endian fields and the header text read back, and the payload stands right behind the padding |
| Asar.EntriesRoundTrip | app/antigravity_patcher.py:81-118 | reading the rewritten entries of any subtree gains exactly its packed files and its stale entries, and with none stale nothing raises |
| Asar.RoundTripExactly | app/antigravity_patcher.py:71-122 | unpacking a packed archive returns exactly the files, with the rewritten header, if and only if the header fits 32 bits, the packed entries are the keys of files and no other entry still carries an offset |
| Asar.PackFailsExactly | app/antigravity_patcher.py:119-122 | packing fails if and only if the header does not fit 32 bits |
| Asar.OffsetsTile | app/antigravity_patcher.py:108-117 | the rewritten offsets and sizes cover the payload from end to end with no gap or overlap |
| Asar.TreeIsPacked | app/antigravity_patcher.py:104-117 | anywhere in the tree packing rewrites size and integrity data of exactly the entries it packs: the hash of the file and of each of its 4 MiB blocks; names, flags and other keys stay |
| Asar.PaddingIsLeast | app/antigravity_patcher.py:120-122 | the payload starts at a multiple of four behind the least padding, which is zeros |
| Asar.FrontRejectedExactly | app/antigravity_patcher.py:73-78 | of any archive, which first sixteen bytes are rejected and why |
| Asar.FileReadExactly | app/antigravity_patcher.py:86-90 | a file entry of any archive is skipped, read from its place, or raises, exactly as flag, offset and size say |
| Refresh.TokenRefresher.Request | app/oauth.py:2663-2680 | up to the lock: what is returned at once, or what the suspended call remembers |
| Refresh.TokenRefresher.GotLock | app/oauth.py:2693-2708 | from the lock to the next suspension: coalesce, find nothing to do, sleep out the gap, or start |
| Refresh.TokenRefresher.Begin | app/oauth.py:2653 | the start is recorded and the provider's refresh function is called with the caller's refresh token |
| Refresh.TokenRefresher.Answered | app/oauth.py:2727-2769 | from the answer to the end: the lock is freed, a failure returns the stored token, a success replaces all four fields in place |
| Refresh.RunKeeps | app/oauth.py:2656-2769 | the protocol invariant (lock ownership, what a suspended call still knows, pacing, the log) holds after every run of interleaved callers, cancellations and clearings |
| Refresh.NeverStuck | app/oauth.py:2693-2727 | in every run each suspended call can go on, at once or after some time, or the call that holds its provider's lock can |
| Refresh.ServedAtOnceExactly | app/oauth.py:2672-2686 | in every run a call is served its connection's token at once if and only if there is no refresh token or function, or it is unforced and the token lasts for more than 60 s; otherwise it waits for the lock |
| Refresh.OneCallInFlight | app/oauth.py:2629-2636 | in every run a provider has at most one refresh call in flight |
| Refresh.StartsAreSpaced | app/oauth.py:2639-2653 | in every run two refreshes of a provider start at least 30 s apart unless the recorded start was cleared between them |
| Refresh.StartsExactly | app/oauth.py:2639-2653 | in every run a call that gets the lock with something to refresh starts at once if and only if no start is on record since the last clearing or the latest is at least 30 s old, and otherwise sleeps until exactly then |
| Refresh.WakingStarts | app/oauth.py:2651-2653 | in every run a call that wakes starts its refresh with its connection's current credentials |
| Refresh.ForgettingLiftsTheGap | app/main.py:19879-19880 | with the recorded start cleared in between there is a run with two starts at the same instant |
| Refresh.AlwaysCurrent | app/oauth.py:2693-2708 | in every run each refresh presents the access and refresh token its connection has at that moment, and each call returns the access token its connection has at that moment |
| Refresh.ReplacedTokenIsNeverUsedAgain | app/oauth.py:2694-2699 | once a refresh replaced a token, and until it is issued again, no call that read it refreshes and no call returns it |
| Refresh.WaitersCoalesce | app/oauth.py:2694-2704 | in every reachable state a call that gets the lock returns the current token at once if and only if its own token is outdated or it is unforced and unexpired |
| Refresh.RenewedTokenServes | app/oauth.py:2663-2668 | after a successful refresh an unforced call is served the new token without the lock exactly until 60 s before its expiry |
| Refresh.AnswerIsStored | app/oauth.py:2729-2762 | in every run an answer with an access token stores it, under the second key too where that exists, with the refresh token just issued or else the old one, and the expiry; any other answer stores nothing, and no other connection changes |
| Refresh.OnlyAnswersStore | app/oauth.py:2656-2769 | no other step changes any connection |
| Refresh.NextStartPresentsIt | app/oauth.py:2700-2733 | in every run the next refresh of the connection after such an answer presents the refresh token it issued, and every call until the next answer returns its access token |
| SaveConnection.FindMatches | app/oauth.py:1151-1154 | the matching indexes, all of them, in order |
| SaveConnection.PickFreshest | app/oauth.py:1156-1159 | the index chosen by max over the expiry texts |
| SaveConnection.FreshestIsGreatest | app/oauth.py:1156-1159 | the chosen row is an account of that email, none expires later, and every earlier one expires sooner, in Python's string order |
| SaveConnection.LessExactly | app/oauth.py:1156-1159 | the order of expiry texts is that of the first place where they differ |
| SaveConnection.Connections.Collapse | app/oauth.py:1164-1170 | deleting in reverse leaves the rows before and after without their matches around the new row, and remembers what was removed |
| SaveConnection.Connections.Rollback | app/oauth.py:1179-1188 | restores the list if the kept row is the first match, raises exactly when its old index is out of range, and otherwise leaves one match too many in a list of the old length |
| SaveConnection.Connections.Save | app/oauth.py:1141-1191 | result and new list of every outcome; after a failed persist the list is the original if and only if the freshest match is the first |
| SaveConnection.SavedExactlyOnce | app/oauth.py:1141-1191 | after a successful save with an email exactly one row has it, in the place and with the set id of the freshest match, and all other rows keep content and order; with no match or no email a new last row |
| BanLadder.Manager.RecordError | app/error_prevention.py:259-480 | the branches of an error give the new entry and action of its key and leave every other key alone |
| BanLadder.Manager.RecordSuccess | app/error_prevention.py:245-257 | every entry of the model has streak 0 and no softban, others unchanged |
| BanLadder.Manager.ClearAllBans | app/error_prevention.py:484-490 | softbans and longbans are cleared with their streaks, disabled models stay |
| BanLadder.Manager.ManuallyEnableModel | app/error_prevention.py:507-515 | every entry of the model is reset |
| BanLadder.Manager.IsBanned | app/error_prevention.py:209-243 | reports a ban if and only if some entry of the model is actively banned, and drops only expired bans |
| BanLadder.ScanFinds | app/error_prevention.py:209-243 | the scan, whatever the insertion order, finds a ban exactly when one is active and changes nothing but expired bans |
| BanLadder.LadderIsPaidFor | app/error_prevention.py:245-480 | with threshold >= 1, in every run 0 <= streak < threshold, level in {0,1,2}, and level times threshold plus streak is at most the errors counted since the last manual enable |
| BanLadder.BansNeedErrors | app/error_prevention.py:424-480 | in every run a longban needs two thresholds of counted errors and disabling three |
| BanLadder.ErrorsClimb | app/error_prevention.py:424-480 | in every run in which a key is left alone, its streak and level are the remainder and the quotient, up to two, of its counted errors by the threshold |
| BanLadder.NextErrorActs | app/error_prevention.py:365-480 | what the next error does to such a key: each threshold-th is a softban, a longban, then disabling or a warning, for the configured times; every other starts the cooldown of its kind unless a longer ban is in force |
| BanLadder.VisitsMean | app/error_prevention.py:245-515 | what a success, a clearing and a manual enable leave of a key they reach, and that they leave every other key alone |
| BanLadder.DisabledIsPermanent | app/error_prevention.py:393-515 | through any later events a disabled model stays disabled until it is enabled by hand |
| BanLadder.NeverShortensExactly | app/error_prevention.py:371-402 | with threshold >= 1 and positive durations, no error in any run ends an active ban sooner if and only if disabling is on, longban >= softban, and (threshold above 1) softban >= every cooldown |
| BanLadder.LongbanRelabelled | app/error_prevention.py:371-402 | a late error relabels a longban as softban exactly when its cooldown reaches the longban's end below the threshold, and then moves the end out |
| Breaker.Breaker.RecordOutcome | app/circuit_breaker.py:358-522 | the new entry and dim state after each class of outcome |
| Breaker.CooldownMeans | app/circuit_breaker.py:425-453 | the cooldown lies between the recovery time and five hours, differs from the recovery time only when a rate limit asks for more, is never longer than asked for, and is shorter than asked for, or than the recovery time, exactly when that passes five hours |
| Breaker.Breaker.IsOpen | app/circuit_breaker.py:285-315 | skips exactly an OPEN entry before its end, with the positive time left; at the end it turns HALF_OPEN |
| Breaker.Breaker.FilterHealthyConnections | app/circuit_breaker.py:317-356 | the pool and the state after looking at every connection; a non-empty list never becomes empty |
| Breaker.Breaker.ResetAll | app/circuit_breaker.py:558-564 | every entry is closed and nothing is dim |
| Breaker.Breaker.ResetConnection | app/circuit_breaker.py:566-587 | every entry of the account and its dim are gone, the rest is kept |
| Breaker.PoolExactly | app/circuit_breaker.py:317-356 | the pool is the connections not skipped in the state before the call, in order, or else all of them, in the order of their last failure |
| Breaker.SortIsStable | app/circuit_breaker.py:345-356 | the fallback sort orders by last failure, loses nothing and keeps the order of equals |
| Breaker.AlwaysSane | app/circuit_breaker.py:386-518 | with threshold >= 1, in every run CLOSED has fewer consecutive failures than the threshold, consecutive <= total, and OPEN lasts between min and max of the recovery time and 18000 s |
| Breaker.HalfOpenOnlyAfterWaiting | app/circuit_breaker.py:303-312 | one event turns an entry HALF_OPEN only from OPEN, by a look at or after its end, and CLOSED only by success or reset |
| Breaker.HalfOpenWaited | app/circuit_breaker.py:303-312 | in every run a HALF_OPEN connection was OPEN, with the same end, until it was looked at at or after that end |
| Breaker.OpenForItsCooldown | app/circuit_breaker.py:418-485 | after a rate-limit or auth outcome the connection is skipped for exactly its cooldown through any looks, lesser failures and traffic on other connections |
| Breaker.LesserFailureOpensExactly | app/circuit_breaker.py:487-518 | in every run a lesser failure opens a closed connection if and only if it is at least the threshold-th failure counted since the last success, reset or re-arming, and a half-open one always, for the recovery time; an open one stays open until the same time |
| Breaker.ModeChangesExactly | app/circuit_breaker.py:285-522 | in every run what closes a connection and what makes it half-open, both directions |
| Breaker.TalliesAreKept | app/circuit_breaker.py:268-522 | in every run the counters, times and last error kept of a connection are those of its events |
| Breaker.DimExactly | app/circuit_breaker.py:402-485 | in every run an account is dim if and only if some dead outcome on one of its models, recorded while enabled, is followed by no recorded success on it, no reset and no re-arming |
| Breaker.DimShowsFirst | app/circuit_breaker.py:476-479 | the time shown for a dim account is that of the first such outcome |
| Watchdog.RunSupervised | app/watchdog.py:214-341 | the supervising loop gives the state and action log of the turn-by-turn machine, and has returned exactly when no child in its log lives |
| Watchdog.RunInv | app/watchdog.py:263-341 | in every run each action is justified by what came right before it, and the pruned restart list counts all restarts of the history that still matter |
| Watchdog.ActionsAreJustified | app/watchdog.py:264-333 | nothing follows a seen exit code 0, a kill other than at shutdown follows three failed probes of that child, and no child is spawned before its predecessor is gone |
| Watchdog.RestartsAreRare | app/watchdog.py:298-323 | in every run at most five restarts happen in any window shorter than 600 s |
| Watchdog.GivesUpExactly | app/watchdog.py:298-323 | a crash or third failed probe ends in giving up if and only if five restarts of the whole history lie within 600 s, and in a respawn otherwise |
| Watchdog.FailuresAreCounted | app/watchdog.py:264-323 | in every run the counter of a supervisor that goes on is the number of probes that just failed in a row |
| Watchdog.LateCleanExit | app/watchdog.py:190-195 | a clean exit is followed by a respawn only if three probes failed and the exit came after the poll |
| Watchdog.CleanExitRespawnsExactly | app/watchdog.py:264-333 | in every run a child that exits with code 0 is replaced if and only if the turn's probe is the third to fail, the exit came after the poll, no signal had arrived and fewer than five restarts of the history lie within 600 s |
| Watchdog.CleanExitCanRespawn | app/watchdog.py:322-328 | a run from the start in which that happens |
| Watchdog.ChildrenAccounted | app/watchdog.py:244-341 | in every run at most one spawned child lives at any time, and the supervisor has returned if and only if every child it spawned was killed, found gone or seen to exit |
| Affinity.AffinityStore.LookupIndex | app/oauth_antiban.py:229-242 | the answer and the store after a lookup: expired entries go, hits move to the end |
| Affinity.AffinityStore.BindTo | app/oauth_antiban.py:244-250 | the store after a bind, trimmed from the oldest end |
| Affinity.NeverOverfull | app/oauth_antiban.py:216-254 | in every run no key is held twice and the store never exceeds its maximum |
| Affinity.OrderIsRecency | app/oauth_antiban.py:229-250 | in every run the dictionary order is the recency of the last bind or hit |
| Affinity.LookupExactly | app/oauth_antiban.py:229-254 | in every run a lookup gives the last bound index exactly when the key is held and within the TTL of its bind |
| Affinity.NotEvicted | app/oauth_antiban.py:244-250 | a touched key stays while fewer than max distinct other keys are bound or hit, whatever else happens |
| Affinity.EvictedExactly | app/oauth_antiban.py:244-250 | where nothing is released or expires, it stays if and only if fewer than max distinct other keys are touched |
| SessionPool.Selector.ApplyAffinity | app/oauth_antiban.py:308-386 | pool, cursor and store after every branch of the selection |
| SessionPool.PoolIsPartOfEligible | app/oauth_antiban.py:308-386 | the pool is empty only if it was given empty, holds only given candidates, and is either all of them or one healthy one |
| SessionPool.NewSessionsRotate | app/oauth_antiban.py:358-375 | with a constant pool the i-th new session of a provider gets the account i places on, whatever calls are interleaved |
| SessionPool.SharesAreFair | app/oauth_antiban.py:358-375 | any n consecutive new sessions give each of k accounts n/k sessions, rounded down or up |
| SessionPool.SessionSticks | app/oauth_antiban.py:341-346 | from the call that gave a session its account on, every later call of the session, however many, gets that account while fewer than max other sessions call between two of them and each finds it eligible, healthy and within the TTL of the one bind |
| SessionPool.GivenAnother | app/oauth_antiban.py:341-382 | a session without a usable account is given one healthy account, the first one unless it is new and accounts rotate, and is bound to it |
| SessionPool.NothingHealthy | app/oauth_antiban.py:341-383 | with no healthy account everything is handed on, and the binding goes exactly if its account is still eligible |
| SessionPool.Bypassed | app/oauth_antiban.py:326-332 | with affinity off, without OAuth or with nothing eligible, everything is handed on and neither store nor cursor moves |
| Paging.BuildClauses | app/observability.py:515-570 | the clause list built step by step holds of a row exactly when the arguments ask for it and it lies below the cursor |
| Paging.QueryUsageEvents | app/observability.py:572-621 | entries, total, has_more and next cursor of a page of the matching rows |
| Paging.PageMeans | app/observability.py:580-612 | a page holds the newest rows, as many as asked for but at most 500, counts all of them, tells whether rows remain unless the limit is negative, and its cursor is its own last row unless the limit is 0 |
| Paging.SelectMembers | app/observability.py:566-588 | a query selects every matching row once, in descending (ts_epoch, id) order |
| Paging.FollowCollectsAll | app/observability.py:550-615 | following the cursor to the end collects every matching row exactly once, newest first, whatever changes above the cursor meanwhile |
| Paging.FollowIsCompleteExactly | app/observability.py:550-612 | for every limit and every start, exactly when a finished walk has collected what its start selects |
| Paging.FollowFinishes | app/observability.py:598-612 | one request more than there are matching rows is enough |
| Paging.IdOnlyStartExactly | app/observability.py:559-565 | from a cursor without timestamp the walk collects what its start selects if and only if there is one page or every wanted row after the first page has a smaller id than the cursor's |
| Paging.IdOnlyStartCollectsMore | app/observability.py:559-565 | a concrete walk from such a cursor that collects a row its start excluded |

## Left out

- EventStream.DecodeSniffed: the text lane and the turning of decoded events into OpenAI chunks are not modelled; only events and payload bytes are.
- CodexMessage.ConsumersAgree: usage numbers, ids, timestamps, finish reasons and reasoning text are not part of a message here; errors raised while reading usage or reasoning summaries are not modelled.
- CodexRequest.BodiesAgreeExactly: contents, ids and names are strings and `function` is an object or missing; list contents, entries of `messages` and `tool_calls` that are no objects, tool declarations, effort and cache fields are not modelled. A missing instruction text counts as an empty one.
- Responses.TwiceIsOnceExactly: content parts of unknown type, which are hoisted to the top level, and the fields outside instructions and input are not part of the statement.
- Gemini.ContentsRoundTripExactly: a tool result id without the Gemini prefix, contents without a role or with parts that are no list, and the body's other fields are not modelled.
- Gemini.EgressParts: a list as function response whose text parts hold no strings, or which holds other than objects, raises in the code and is joined without them here; such a part never comes back either way.
- Asar.RoundTripExactly: `int` on texts other than those `str` writes is any function; sizes that are not integers and text that UTF-8 cannot encode are not modelled. No directory holds a name twice, as JSON objects cannot; slashes in names are allowed.
- Refresh.AlwaysCurrent: only this protocol changes a connection dictionary; writing refreshed tokens to the configuration, GitHub and Kiro extras, and an `expires_in` that is not an integer are not modelled. A suspended coroutine is the value of its local variables, and any waiter may get a free lock next.
- Paging.FollowCollectsAll: starts without a cursor or at one with its timestamp; `Paging.IdOnlyStartExactly` is about the others. Timestamps that do not parse (they read as the current time), cursor ids as text and OFFSET paging are not modelled.
- Keys built by joining names with "/" are tuples, so names that contain a slash cannot collide; the breaker's keys, the ban keys and the dim keys are affected.
- The substring heuristics that classify errors, the regular expressions that find a reset time, and the quota side table are inputs of the ban manager and the breaker.
- Reloading ban state from its sidecar file, the flip of the model's enabled flag in the configuration, and the breaker's last-used table.
- In the supervisor, log files, the boot gate (it only waits) and the signal handlers' installation; a signal is seen at the next turn.
- Malformed candidate entries and the catch-all of `apply_affinity`; the provider's account client cache and the other governors of `app/oauth_antiban.py`.
- The `_patch_*` source rewriters, HTTP clients, routes, OAuth URL building, token mapping, encryption and the accept-loop patch.
- The lock file of `app/dualstack_serve.py`: it rests on process probing.
