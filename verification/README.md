# Noeta Agent: a verified model of its delivery, folding and lifecycle code

Noeta Agent turns an append-only event log into a conversation that survives reconnects,
backpressure and undo, and keeps the containers and previews behind it alive. This project models
the code that makes those promises and proves them for every input, every run and every
interleaving. `dafny verify dfyconfig.toml` checks all of it.

## The delivery path

`Translator` maps engine envelopes to UI frames; `Subscriptions` is the bounded, delta-evicting queue
of one connection; `Cursors` the per-connection dedup; `Replay` the re-derivation of a session from
the log; `Conversation` the client's reducer; `Delivery` puts them together as a transition system
with steps for commit, fan-out, synthetic push, a scheduled offer reaching the queue, the reader's
check, pop, wake-up and timeout, reading and writing the replay, receiving, dropping the connection
and reconnecting with the client's own cursor. The theorem `Delivery.GapFreeExactlyOnce` speaks of
every run of those steps. `SseWire` is the text layer under it: printer, incremental decoder, parser.

One envelope may yield several frames with one seq. Both cursors reject `seq <= last`, so only the
first of them is ever applied, live or replayed (`Agreement.ClientSeesFirstFrames`). For a failed task that
means the error notice is folded and the turn end behind it is not: the error case of the reducer
stops the turn by itself, so server and client still agree, but the outcome is not recorded and what
the end would have closed stays open (`Agreement.FailedTaskDropsItsEnd`). For an appended body it means
that the second text, skill or message of one envelope is never shown (`Agreement.SecondTextIsLost`):
the client is shown every event of a log exactly when no envelope yields more than one
(`Agreement.ShowsEverything`). The theorems on durable delivery are stated over the first frame of each seq.

Frames without a seq are delivered too, and no cursor may stop them. `SyntheticDelivery` follows them through
the same runs: what a fork inherits, the steps of subtasks, deltas and pushes are written in order, marker
included, and reach the client (`SyntheticDelivery.NothingSyntheticIsLost`,
`SyntheticDelivery.DrainedShowsSynthetic`), and a client that resumes is sent none of them again
(`SyntheticDelivery.ReconnectRepeatsNothing`). No connection gets stuck short of that
(`Progress.EveryConnectionCanDrain`).

## The client fold

`FoldLaws` says of every event which item it touches and what that item becomes, without the reducer's
own helpers; `CallHistory` follows one tool call along a whole run; `EnvelopeLaws` goes from an envelope
of the log to what the client shows of it. `ConversationLaws` proves laws of the reducer over whole logs:
truncation, the rewind law, and that deltas interfere with nothing. The reducer's one large function is
written as two halves, an edit of the item list and an update of the flags, which is the form every case
of the source has.

A rewind does not undo every frame. An item folded from a frame without a seq has a negative key, which
is below every boundary, and most such items stay: the error pushed when a drive throws (`ConversationLaws.PushedErrorOutlivesRewind`),
a second end of a subtask whose card is closed (`ConversationLaws.LateSubtaskEndOutlivesRewind`), and
others. `ConversationLaws.Undone` has one arm for every event, and `ConversationLaws.RewindUndoesExactly`
proves that a frame, durable or not, is undone if and only if its arm holds; `RewindUndoesTurns` gives a
condition on the frames alone, over several turns and inner rewinds.

For the same reason a full replay, which carries frames without a seq, is harmless for some events
and not for others. `ConversationLaws.RepeatedFrame` draws the line for one frame sent twice in a row.
`SecondReplay` treats the two ways in which such frames reach a client twice. A client whose cursor is
still -1 or 0 reconnects by a second full replay, which doubles what a fork inherits
(`SecondReplay.SecondReplayDoubles`, `SecondReplay.ForkShowsTwice`). And because a connection subscribes
before it replays, the steps of a subtask that are fanned out in between are also spliced into the
replay, and no cursor drops them: `SecondReplay.OverlapIsQuiet` says exactly when that overlap changes
nothing. Without a rewind in the log it does so unless a subtask was cancelled
(`SecondReplay.OnlyCancelsAreLoud`); then the subtask's card shows twice
(`SecondReplay.CancelShowsTwice`). With a rewind an undone step can come back
(`SecondReplay.RewoundStepReturns`).

## State machines with memory, worklists and grammars

`Status` is the absorbing status machine, `Agreement` relates it to the client's running flag,
`Trace` the cursor worklist of the trace page, `Aggregate` the grouping of a transcript into turns,
`Draft` the composer's token grammar, `WsProxy` the WebSocket frame codec and pump, `Preview` the
token registry, `Sandbox` the Docker provider's reference counts and ports, `Reaper` the idle sweep
that drives it.

Where the code keeps less than its comments say, there is a concrete run or input and an exact condition:

- "only the session's last root unmounts": a session that is mounted anew, at another address or after an
  eviction or unmount, forgets the roots of its old mount, so a release can blank a panel another stream
  still uses (`Preview.ReplacedMountForgetsRoots`, `Preview.RepublishForgets`). A mount's roots are exactly
  those published since its token was minted and not released since (`Preview.HeldRoots`), so the release
  unmounts beside another unreleased root exactly when the token was minted after that root's last
  publish (`Preview.ReleaseUnmountsExactly`, `Preview.OneOtherRootDecides`);
- a rebuild reuses the ref's port without looking at the reserved ones, and can strand another,
  stopped container (`Sandbox.RebuildStrandsAnother`; `Sandbox.StepPorts` is the exact condition);
- a root whose container changes still counts for the old one (`Sandbox.MovedRootStillCounts`), and
  releasing the old one by force forgets where the root is now recorded
  (`Sandbox.ForceReleaseForgetsMoved`). `Sandbox.HeldRoots` says by the calls which roots a container's
  set holds, and `Sandbox.StraysKeepContainers` exactly when a release keeps a container that no recorded
  root maps to;
- committing a mention whose value holds a `]` can close a bracket token left open earlier in the
  draft (`Draft.MentionBecomesSkill`; `Draft.CommitReadsAsMention` is the exact condition);
- a turn with two cards of one subtask shows its steps twice (`Aggregate.TwoEndsMakeTwoCards` folds such
  a transcript; the condition is in `Aggregate.TurnsConserveTranscript`);
- reasoning behind a notice lands in the answer although the comment at
  web/src/app/fold/aggregate.ts:805-808 rules it out (`Aggregate.ThinkingBehindError`;
  `Aggregate.AnswerHoldsThinking` is the exact condition).

## Assumptions about the environment

- The engine hands the envelopes of one stream to the hub in seq order, after commit.
- A session's stream is routed to it from its first envelope.
- `translate` is a pure function of the envelope; message bodies are already parsed and dereferenced.
- Each step of a transition system is atomic; locks and the thread-to-loop hand-off are the reason.
- Random tokens are fresh, docker queries that the code treats as reliable succeed, and what the
  daemon, probe, port picker, resolver, clock and random source answer are parameters.

## Model

| member | source | states |
|---|---|---|
| Translator.CollectFromMessages | noeta/agent/host/translator.py:229-316 | the appending loop over a message body yields exactly the events of its messages in order |
| Translator.CollectFromBlocks | noeta/agent/host/translator.py:270-316 | the inner loop over an assistant message yields its non-empty texts and skill uses in order |
| Translator.FramesAreStamped | noeta/agent/host/translator.py:660-690 | every frame of a session's stream carries its envelope's seq and its task, so none of them is synthetic |
| Translator.ManyFramesOnlyFromBodies | noeta/agent/host/translator.py:396-621 | several frames share a seq only for an appended message body or a failed task |
| Translator.SpawnsShowCards | noeta/agent/host/hub.py:60-62 | an envelope announces a subtask's stream exactly when it opens that subtask's card, foreground or background |
| EnvelopeLaws.BodySays | noeta/agent/host/translator.py:229-316 | exactly the non-empty texts and skills of the assistant, non-empty recalls and what the user typed or attached are shown of a body; host-injected text and tool receipts are not |
| EnvelopeLaws.BodyConcat | noeta/agent/host/translator.py:249-316 | a body says what its messages say, in order |
| EnvelopeLaws.EnvelopeYields | noeta/agent/host/translator.py:404-621 | calls, results, todos, questions, subtasks and marks are told as they were recorded; a call of one of the four memory tools is told by what follows `memory_` in its name |
| EnvelopeLaws.SubtaskYields | noeta/agent/host/translator.py:319-380 | of a subtask's stream its calls, results and cancellation alone are shown, without a seq, under its card |
| EnvelopeLaws.EnvelopeRests | noeta/agent/host/translator.py:595-657 | a completed, cancelled or suspended task leaves the client at rest with that outcome and reason and every item closed accordingly; a suspension on a subtask or a question changes nothing |
| UIEvents.ThinnedEvict | noeta/agent/host/hub.py:98-110 | evicting the oldest buffered delta keeps the rest a subsequence that lost deltas only |
| UIEvents.ThinnedKeepsTheRest | noeta/agent/host/hub.py:98-110 | losing deltas loses nothing else and keeps the order of the others |
| Subscriptions.OldestDelta | noeta/agent/host/hub.py:98-105 | finds the first delta of the queue, or reports that there is none |
| Subscriptions.Subscription.Offer | noeta/agent/host/hub.py:92-112 | the eviction loop realises the drop rules: room, else evict the oldest delta, else drop an offered delta, else raise the overflow flag |
| Subscriptions.Subscription.TakeNext | noeta/agent/host/hub.py:123-137 | the popping half of `next` takes the head and nothing when the queue is empty |
| Subscriptions.StepKeepsInv | noeta/agent/host/hub.py:92-137 | every single step of offers and reader keeps the channel invariant, also after overflow while the reader sleeps |
| Subscriptions.BoundedQueueSafety | noeta/agent/host/hub.py:92-137 | over every run the queue never exceeds its maximum, only deltas are discarded before overflow, and the non-delta frames emitted are a prefix of those offered |
| Subscriptions.OnlyDeltasAreLost | noeta/agent/host/hub.py:65-112 | until overflow every frame that is not a streamed delta was taken or is still queued, in order |
| Replay.CollectInherited | noeta/agent/host/hub.py:523-556 | the loop that stops at the branch point yields the frames of exactly the envelopes before it, without seqs and under the fork's own task |
| Replay.InheritsUpToTheBranch | noeta/agent/host/hub.py:541-556 | of an ordered source exactly the envelopes with a seq below the branch point are inherited, and all of them without one |
| Replay.InheritedIsRestamped | noeta/agent/host/hub.py:549-556 | inherited frames are the source's own, in order, with the same event and clock, no seq, and the fork's stream |
| Replay.CollectOwn | noeta/agent/host/hub.py:505-521 | own envelopes in order, each subtask's stream spliced in behind the envelope that spawned it on a full replay |
| Replay.CollectSubtask | noeta/agent/host/hub.py:558-569 | a spliced subtask stream is its translation, tagged with the root task |
| Replay.CollectReplay | noeta/agent/host/hub.py:471-521 | a replay is the inherited prefix, only on a full replay, and then the own stream past the floor; a cursor of 0 asks for everything |
| Replay.ReplayIsRederivation | noeta/agent/host/hub.py:471-569 | the frames with a seq of any replay are exactly the frames of the session's own envelopes past the floor, in order |
| Replay.ResumedReplayIsOwn | noeta/agent/host/hub.py:498-521 | a resumed replay is the frames of the session's own envelopes past the cursor and nothing else |
| Replay.CardsAreSpliced | noeta/agent/host/hub.py:505-521 | a full replay holds the stream of every subtask with a card, directly behind the frame that opens the card |
| Cursors.Cursor.Accept | noeta/agent/api/events.py:79-92 | passes frames without a seq, rejects a seq at or below the last of its task, and moves only that task's cursor |
| Cursors.AdmitConcat | noeta/agent/api/events.py:83-92 | showing a cursor two batches lets through what showing it their concatenation does |
| Cursors.CursorCovers | noeta/agent/api/events.py:83-92 | after a batch the cursor stands at or above every seq of it and admits none of it again |
| Cursors.Resume | noeta/agent/api/events.py:79-92 | a stream shown again from the seq of its p-th first frame lets through exactly the first frames after it |
| Delivery.ReshownFramesAreDropped | noeta/agent/api/events.py:114-155 | live frames already written by the replay are dropped and only the new ones add anything |
| Delivery.OverlapHasNoGap | noeta/agent/api/events.py:95-138 | subscribing before replaying leaves no gap: a replay that read at least what was fanned out before, then any prefix of what was fanned out after, is the whole stream past the cursor |
| Delivery.SentIsPrefix | noeta/agent/api/events.py:114-155 | at every moment what a connection has written is a prefix of what it owes |
| Delivery.FloorSkipsNothing | noeta/agent/host/hub.py:498-512 | reading the log past the floor loses nothing the cursor would have let through |
| Delivery.NextKeepsInv | noeta/agent/api/events.py:114-155 | every step of commit, fan-out, offer, reader, replay, receive, drop and reconnect keeps the delivery invariant |
| Delivery.RunKeepsInv | noeta/agent/api/events.py:114-155 | the delivery invariant holds in every reachable state |
| Delivery.GapFreeExactlyOnce | web/src/app/sse/reconnect.ts:97-134 | in every interleaving the durable frames the client applied are exactly the first frame of every frame-producing envelope at or below its cursor, in order, each once; its conversation is their fold; the resume value is above no cursor it holds |
| Delivery.DrainedIsComplete | noeta/agent/api/events.py:138-155 | once an open connection that has not overflowed is drained, the client holds the first frame of every frame-producing envelope of the log |
| SyntheticDelivery.NothingSyntheticIsLost | noeta/agent/api/events.py:79-155 | on every run the frames without a seq that were written are, in order, those the replay sent, one marker at going live, and those the reader took; those offered are those pushed since subscribing; the client applied all it received |
| SyntheticDelivery.DrainedShowsSynthetic | noeta/agent/api/events.py:114-155 | once drained without overflow, the client's last frames without a seq are all of those of the replay, the marker, and all pushed since but for deltas given up by a full queue |
| SyntheticDelivery.ReconnectRepeatsNothing | noeta/agent/host/hub.py:498-521 | a client past seq 0 is replayed no frame without a seq; any other is replayed what it inherits and its own stream with its subtasks |
| Progress.EveryConnectionCanDrain | noeta/agent/api/events.py:114-155 | from every state of every run an open connection that has not overflowed can be drained by steps of its own: replay read and sent, marker, queue emptied, everything received |
| Progress.LogIsCommitted | noeta/agent/host/hub.py:283-299 | the session's log along any run is what was committed to its own stream under ascending seqs, and nothing else |
| Conversation.LowestCursor | web/src/app/fold/conversation.ts:132-138 | the value a client resumes from is a lower bound of its cursors, attained, and -1 when there is none |
| Conversation.ResumeNeverSkips | web/src/app/fold/conversation.ts:595-612 | after any frames the resume value is that least cursor |
| Conversation.FoldMovesOneCursor | web/src/app/fold/conversation.ts:595-612 | only a fresh durable frame moves a cursor, and only its own stream's |
| Conversation.EditKeys | web/src/app/fold/conversation.ts:157-195 | a new item is keyed by its frame's seq or the next negative key, a rewritten one keeps its key, an acknowledged echo takes the acknowledging key |
| FoldLaws.AppendsWhatItSays | web/src/app/fold/conversation.ts:287-533 | texts, markers, questions and notices are appended word for word under the frame's key, stream and clock, with their effect on preview, gate and turn |
| FoldLaws.MessageTakesItsEcho | web/src/app/fold/conversation.ts:259-285 | a message takes the place of the last pending send it acknowledges, or is appended |
| FoldLaws.SendShowsOnce | web/src/app/fold/conversation.ts:259-285 | a send shows at once, and the message that acknowledges it leaves exactly one item in its place |
| FoldLaws.CallOpensOneStep | web/src/app/fold/conversation.ts:308-327 | a call opens a running step exactly when its id has none |
| FoldLaws.ResultClosesItsStep | web/src/app/fold/conversation.ts:329-344 | a result closes the last running step of its call, succeeded exactly when it says so, with its summary and output, and touches no other item |
| FoldLaws.TodosRewriteTheTurns | web/src/app/fold/conversation.ts:364-379 | the checklist of the present turn is rewritten in place, else one is appended |
| FoldLaws.StartOpensOneCard | web/src/app/fold/conversation.ts:381-401 | a subtask's start opens a running card exactly when it has none |
| FoldLaws.EndClosesItsCard | web/src/app/fold/conversation.ts:403-425 | a subtask's end closes its last running card with the outcome it carries, else leaves a closed card |
| FoldLaws.AnswerOpensTheGate | web/src/app/fold/conversation.ts:444-472 | an answer marks the question's card answered, a withdrawal withdrawn, and both open the gate if that question holds it |
| FoldLaws.EndOfTurnCloses | web/src/app/fold/conversation.ts:487-523 | running steps are cancelled or failed with the turn, running cards cancelled with it, open questions withdrawn, and the client rests with the turn's status and reason |
| FoldLaws.RewindLeaves | web/src/app/fold/conversation.ts:535-586 | a rewind leaves, in order, exactly the items at or before its target that are no pending send and no synthetic step of a card that goes |
| FoldLaws.FlagsOnly | web/src/app/fold/conversation.ts:198-222 | a retry ends the preview of its own call alone; marks of turn, title and replay change nothing but their flag |
| FoldLaws.PreviewJoinsDeltas | web/src/app/fold/delta-buffer.ts:75-112 | after the deltas of a call the preview is that call's, and each block holds their joined texts |
| CallHistory.StepsFollowTheirCalls | web/src/app/fold/conversation.ts:308-585 | along every run each call has at most one step, and it shows the call's own history: opened by its first call, closed once, by the first result or failing end of turn that finds it running |
| Conversation.FoldEventKeepsKeys | web/src/app/fold/conversation.ts:157-167 | the next synthetic key stays negative, below every key in use, and never goes back up |
| ConversationLaws.KeysNeverCollide | web/src/app/fold/conversation.ts:157-195 | along any fold of frames and echoes the synthetic keys are pairwise distinct, and so are all keys when the durable frames come from one stream |
| ConversationLaws.TruncateFixpoint | web/src/app/fold/conversation.ts:535-585 | truncation leaves a list alone exactly when it holds no later item, no orphaned synthetic step and no unacknowledged send |
| ConversationLaws.TruncateIsFilter | web/src/app/fold/conversation.ts:535-585 | the three rules applied in turn are one filter over the original list |
| ConversationLaws.TruncateCompose | web/src/app/fold/conversation.ts:535-585 | truncating twice is truncating once at the earlier boundary |
| ConversationLaws.RewindUndoes | web/src/app/fold/conversation.ts:535-585 | over a settled prefix and any span of echoes and undone frames, rewind gives back exactly the prefix's items, at rest |
| ConversationLaws.RewindUndoesExactly | web/src/app/fold/conversation.ts:535-585 | after such a span one more frame of any kind, durable or not, is undone by the rewind if and only if `Undone` says so, one arm per event |
| ConversationLaws.PushedErrorOutlivesRewind | noeta/agent/api/sessions.py:542-549 | the error pushed without a seq when a drive throws is the one item that stays behind |
| ConversationLaws.RewindUndoesTurns | web/src/app/fold/conversation.ts:487-585 | by the frames alone: any number of later turns of durable frames with fresh ids and synthetic steps of their own subtasks, inner rewinds at or past the boundary included, are undone |
| ConversationLaws.LateSubtaskEndOutlivesRewind | web/src/app/fold/conversation.ts:403-425 | a subtask end without a seq is undone by the rewind exactly when it still finds its card running |
| ConversationLaws.DeltasDoNotInterfere | web/src/app/fold/conversation.ts:198-222 | deleting any deltas from any frames changes nothing but the streaming preview |
| ConversationLaws.RepaintErasesDeltas | web/src/app/fold/delta-buffer.ts:75-112 | after the next assistant text, thinking or turn end the whole states are equal |
| ConversationLaws.RepeatedFrame | web/src/app/fold/conversation.ts:308-425 | a frame without a seq, which no cursor dedups, is a no-op when re-sent for exactly these events: calls, starts, ends of turns and questions, todo lists, flags, a result unless its call runs twice, an empty delta; never for messages, texts, subtask ends or notices |
| SecondReplay.SecondReplayDoubles | noeta/agent/host/hub.py:471-556 | whatever the client has seen and whatever else a replay brings, it adds a lasting item for every message, text, question, card or notice it sends without a seq, so an inherited transcript doubles |
| SecondReplay.ForkShowsTwice | noeta/agent/host/hub.py:523-556 | a concrete fork: one inherited message, the full replay folded twice, two messages |
| SecondReplay.QuietTogether | web/src/app/fold/conversation.ts:308-425 | frames without a seq that can take nothing back leave a list alone together exactly when each of them does alone |
| SecondReplay.OverlapIsQuiet | noeta/agent/api/events.py:114-155 | after any full replay the live frames it has already read, of the session and of its subtasks, change no item exactly when every spliced call among them still has its step, no spliced result finds one running, and no spliced end is among them |
| SecondReplay.OnlyCancelsAreLoud | noeta/agent/host/hub.py:498-569 | if the replay holds no rewind and each such result behind its call, exactly when the overlap holds no end of a cancelled subtask |
| SecondReplay.CancelShowsTwice | noeta/agent/host/hub.py:558-569 | a concrete overlap: the end of a cancelled subtask closes its card in the replay and leaves a second card when it arrives live |
| SecondReplay.RewoundStepReturns | noeta/agent/host/hub.py:558-569 | a concrete overlap: a rewind took a subtask's step away with its card and the live copy of the call brings it back |
| Status.StatusMachine.Observe | noeta/agent/host/status.py:164-181 | reports nothing for a closed task, otherwise the envelope's status, and remembers a terminal one, evicting the oldest |
| Status.StatusMachine.Forget | noeta/agent/host/status.py:187-193 | forgets that task only |
| Status.RunStaysBounded | noeta/agent/host/status.py:149-193 | along every run the remembered tasks are distinct and at most `memory` |
| Status.TerminalAbsorbs | noeta/agent/host/status.py:149-193 | after a task's terminal envelope every later one of it moves nothing until `memory` further closings or a forget of it, however tasks interleave |
| Status.MemoryIsExact | noeta/agent/host/status.py:149-193 | without a forget or a second closing it is absorbed if and only if fewer than `memory` tasks closed since |
| Agreement.ClientSeesFirstFrames | web/src/app/fold/conversation.ts:595-612 | folding all frames of a log is folding the first frame of each envelope, from any state |
| Agreement.ShowsEverything | web/src/app/fold/conversation.ts:595-612 | a client that has seen nothing of a stream applies every frame of its log exactly when no envelope yields more than one |
| Agreement.SecondTextIsLost | noeta/agent/host/translator.py:270-316 | an assistant message with two texts: two frames are sent and the client shows the first |
| Agreement.FailedTaskDropsItsEnd | noeta/agent/host/translator.py:595-621 | of a failed task the client shows the error and stops; the turn end under the same seq is dropped, so outcome and pending question stay, and the items are those the end would have left exactly when no step is running and no question open |
| Agreement.StepAgrees | noeta/agent/host/status.py:83-181 | one more envelope keeps server and client in agreement on rest exactly when it is orderly |
| Agreement.AgreeOnRest | noeta/agent/host/status.py:83-181 | server idle and client not running coincide after every envelope of a log exactly when questions and barriers fall inside a turn, rewinds at rest, and nothing starts after a terminal |
| Agreement.StatusIsTheLastWord | noeta/agent/host/status.py:83-146 | until a task ends the server is waiting, running or idle as the last envelope that speaks of it says: questions, starts and barriers, anything else that stops it |
| SseWire.FindLineBreak | web/src/app/sse/decoder.ts:49-59 | the scan finds the next LF, CRLF or CR; a CR that ends the buffer is not one yet |
| SseWire.LineEndsAreAlike | web/src/app/sse/decoder.ts:49-81 | LF, CRLF and a CR that is not followed by LF end a line alike |
| SseWire.SseDecoder.HandleLine | web/src/app/sse/decoder.ts:103-131 | one line's frame and its effect on the block: blank dispatches, comments and unknown fields do nothing, an id with NUL is ignored |
| SseWire.SseDecoder.Dispatch | web/src/app/sse/decoder.ts:133-149 | emits the block if it has data, under its own id only, and always resets it |
| SseWire.SseDecoder.Push | web/src/app/sse/decoder.ts:68-81 | the cursor loop emits and keeps what consuming the buffered text line by line gives |
| SseWire.SseDecoder.Flush | web/src/app/sse/decoder.ts:90-101 | the end of the stream emits the unterminated block and leaves a fresh decoder |
| SseWire.BlockMeans | web/src/app/sse/decoder.ts:103-149 | a block gives one frame if it has a data line: its data values joined by line feeds, under its last event name or `message`, with its own last id; values lose one space, comments and other fields say nothing |
| SseWire.ParsesNamedObjects | web/src/app/sse/events.ts:31-50 | an event is one exactly when it is named, not by the default name, with an object as data; an empty id gives no seq |
| SseWire.FlushEndsTheBlock | web/src/app/sse/decoder.ts:90-101 | the end of the stream is read as the line feeds that the residual line and its block were owed |
| SseWire.PushTwice | web/src/app/sse/decoder.ts:68-81 | pushing two chunks is pushing their concatenation, wherever the cut falls |
| SseWire.ChunksDoNotMatter | web/src/app/sse/decoder.ts:61-101 | for any chunking of any text the emitted frames, the remaining state and the final flush are those of the whole text |
| SseWire.ChunksNeverMatter | web/src/app/sse/decoder.ts:61-101 | and so from any point of a stream on: every decoder that pushes can reach holds no complete line |
| SseWire.SeqReadsBack | web/src/app/sse/events.ts:43-49 | a printed seq reads back as itself exactly when it is below 2^53 or `Number` happens to represent it |
| SseWire.ReadsBackOne | noeta/agent/host/hub.py:583-595 | a decoder between events reads one printed event back and is between events again |
| SseWire.WireRoundTrip | noeta/agent/host/hub.py:583-595 | any events with exact seqs, with comments between them, cut anywhere, decoded, flushed and parsed, come back unchanged; an event without a seq never inherits one |
| WsProxy.EncodeFrame | noeta/agent/host/ws_proxy.py:142-160 | the growing header, key and masked payload are the frame's layout |
| WsProxy.EncodedLayout | noeta/agent/host/ws_proxy.py:142-160 | byte by byte: final bit and opcode, mask bit and short length, the length in network byte order over 0, 2 or 8 bytes, the key, the payload |
| WsProxy.FrameReader.Exactly | noeta/agent/host/ws_proxy.py:175-183 | takes exactly that many bytes, or drains the stream and gives nothing |
| WsProxy.FrameReader.Read | noeta/agent/host/ws_proxy.py:185-221 | the incremental read is the layout's reading, and leaves the rest of the stream |
| WsProxy.MaskedTwice | noeta/agent/host/ws_proxy.py:159-221 | masking is its own inverse under any key |
| WsProxy.MaskedBits | noeta/agent/host/ws_proxy.py:159-221 | masking flips exactly the bits that the key, repeated every four bytes, has set |
| WsProxy.ValueOfBigEndian | noeta/agent/host/ws_proxy.py:148-202 | the extended length fields read back as the length |
| WsProxy.ReadsBack | noeta/agent/host/ws_proxy.py:142-221 | reading an encoded frame, in any of the three length forms, under any key and whatever follows, gives that frame and the rest; a payload over the cap is refused with its length |
| WsProxy.CutFrameEnds | noeta/agent/host/ws_proxy.py:175-221 | an encoded frame cut anywhere reads as end of stream |
| WsProxy.StreamReadsBack | noeta/agent/host/ws_proxy.py:163-221 | reading any prefix of a stream of encoded frames gives exactly the frames that lie whole in it |
| WsProxy.Pump | noeta/agent/host/ws_proxy.py:365-383 | writes the encodings of the frames read, through the first close, or as many bytes of them as the destination takes |
| WsProxy.PumpIsTransparent | noeta/agent/host/ws_proxy.py:365-383 | what the peer received decodes to the input's frames through the first close, or to the prefix of them that arrived whole |
| Trace.Collect | noeta/agent/api/trace.py:54-83 | the worklist terminates and returns, stream by stream, exactly the events past the cursor of the least set of tasks that holds the roots and is closed under spawn markers, and a cursor moved over them |
| Trace.ReadStream | noeta/agent/api/trace.py:73-82 | the inner loop returns one stream's events, moves its own cursor value only, and announces its unread subtasks in order |
| Trace.RawEvents | noeta/agent/api/trace.py:86-107 | a poll starts from the session's streams and every task its cursor already knows |
| Trace.PollsPartitionTheLog | noeta/agent/api/trace.py:54-107 | on streams that grow between polls, feeding each cursor back returns every event of every stream reachable from the session's streams exactly once, nothing of any other, and leaves the cursor at every end |
| Trace.CardsAreTraced | noeta/agent/api/trace.py:73-82 | every subtask whose card is opened in a returned stream has its whole stream returned |
| Aggregate.BuildRows | web/src/app/fold/aggregate.ts:558-592 | the open-run loop builds the flat rows |
| Aggregate.RowsAreMaximalRuns | web/src/app/fold/aggregate.ts:558-592 | flattening the rows gives back the items in order, and aggregates are maximal runs of at least two aggregatable calls |
| Aggregate.RowsAreUnique | web/src/app/fold/aggregate.ts:558-592 | no other rows have those two properties |
| Aggregate.TwoCallsAggregate | web/src/app/fold/aggregate.ts:558-592 | two adjacent calls become one row exactly when both are of an aggregating tool, and on the top level neither is a subtask's |
| Aggregate.BuildGroupedRows | web/src/app/fold/aggregate.ts:610-639 | the anchor, bucket and row loops nest every step under the cards of its subtask and leave the others in place |
| Aggregate.GroupingKeepsOrder | web/src/app/fold/aggregate.ts:610-639 | the top level is the transcript without the nested steps, each card holds exactly its subtask's steps, both in transcript order, and in both the aggregates are maximal runs of at least two |
| Aggregate.GroupedCount | web/src/app/fold/aggregate.ts:610-639 | a nested step is shown once per card of its subtask, everything else once |
| Aggregate.GroupingConserves | web/src/app/fold/aggregate.ts:610-639 | nothing is lost, and the rows are a permutation of the items exactly when every nested step has one card |
| Aggregate.CountStepRowsCountsItems | web/src/app/fold/aggregate.ts:650-656 | the step count is the number of items behind the rows, nested ones included |
| Aggregate.StepCountIsExact | web/src/app/fold/aggregate.ts:650-656 | a turn's count is at least the number of its non-thinking items before the cut, and equal exactly when no step is drawn into two cards |
| Aggregate.AnswerStart | web/src/app/fold/aggregate.ts:771-777 | the two scans find the one cut: behind the last work item, or at the first notice if that comes sooner |
| Aggregate.CutIsUnique | web/src/app/fold/aggregate.ts:771-777 | a body has one such cut only |
| Aggregate.AnswerByKinds | web/src/app/fold/aggregate.ts:729-777 | by the kinds of items: nothing that happened is before the cut, nothing at work is behind it unless something that happened is at it, and the cut is no earlier than that needs |
| Aggregate.PlainAnswerStart | web/src/app/fold/aggregate.ts:729-777 | without an error, question or compaction the answer starts directly behind the last call, memory, skill, checklist, subtask, reasoning or recall, or at the start |
| Aggregate.AnswerHoldsWork | web/src/app/fold/aggregate.ts:771-777 | the answer holds work exactly when a notice precedes it |
| Aggregate.AnswerHoldsThinking | web/src/app/fold/aggregate.ts:799-813 | the answer holds reasoning exactly when a notice precedes it |
| Aggregate.ThinkingBehindError | web/src/app/fold/aggregate.ts:799-813 | an error followed by reasoning: the reasoning is a row of the answer and the thinking line is empty |
| Aggregate.BuildTurns | web/src/app/fold/aggregate.ts:786-833 | one block per group; only the last may be live |
| Aggregate.GroupsCutTheTranscript | web/src/app/fold/aggregate.ts:793-797 | the groups are the transcript cut right before each user message |
| Aggregate.TurnKeepsOrder | web/src/app/fold/aggregate.ts:799-833 | no notice and no reasoning among the steps; reasoning, answer, the top level of the steps and every card's own list in transcript order, and in all of them the aggregates are maximal runs |
| Aggregate.OnlyTheLastIsLive | web/src/app/fold/aggregate.ts:814-819 | a block is live exactly when it is the last and a turn is running; of the others those can be folded that have something before their answer |
| Aggregate.TurnFoldsWhatIsBefore | web/src/app/fold/aggregate.ts:799-833 | a turn can be folded exactly when it is not live and something comes before its answer |
| Aggregate.TurnsConserveTranscript | web/src/app/fold/aggregate.ts:786-833 | every item is shown, and all blocks together are a permutation of the transcript exactly when no step is drawn into two cards of its turn |
| Aggregate.TwoCardsShowTwice | web/src/app/fold/aggregate.ts:610-639 | two cards of one subtask around its step show the step twice |
| Aggregate.TwoEndsMakeTwoCards | web/src/app/fold/conversation.ts:403-425 | a start, a step and two ends without a seq fold to such a list, whose step is shown twice |
| Draft.MentionRoundTrip | web/src/app/draft/tokens.ts:99-105 | decoding an encoded mention returns every value, literal escapes included |
| Draft.SplitDraft | web/src/app/draft/tokens.ts:133-142 | the loop classifies pieces by position and drops empty ones |
| Draft.DraftRoundTrip | web/src/app/draft/tokens.ts:133-147 | serializing a split returns every string unchanged |
| Draft.MentionTrigger | web/src/app/draft/triggers.ts:39-39 | finds the one `@query` that ends the draft at a word boundary, or reports that there is none |
| Draft.TokenAppend | web/src/app/draft/tokens.ts:86-87 | text that starts with `@` after a word boundary changes no token before it, unless it closes an open bracket token |
| Draft.CommitReadsAsMention | web/src/app/draft/triggers.ts:89-94 | committing leaves the earlier text as it read and adds one mention of the value, exactly when the value is non-empty, has no `@` and no whitespace but spaces, and closes no bracket token left open before it |
| Draft.MentionBecomesSkill | web/src/app/draft/triggers.ts:89-94 | a concrete draft: after `[skill @` committing the value `a]` pins a skill and mentions nothing |
| Draft.SkillReadsBack | web/src/app/draft/tokens.ts:155-157 | a pinned skill reads back as that skill exactly when its name is non-empty and has no `]` |
| Draft.BracketReadsBack | web/src/app/draft/tokens.ts:86-142 | a pinned skill, a pasted text or an attachment reads back as just that, with its body, exactly when the body is non-empty without `]` |
| Preview.PreviewGateway.MountContainer | noeta/agent/host/preview_gateway.py:299-331 | same address: same token and one more root; otherwise the session's old token dies and a fresh one is mounted, the oldest mounts evicted |
| Preview.PreviewGateway.EvictOldest | noeta/agent/host/preview_gateway.py:329-330 | the loop drops oldest first until the limit holds |
| Preview.EvictKeepsTheNewest | noeta/agent/host/preview_gateway.py:329-330 | eviction keeps the newest 64 mounts, in order, as they are |
| Preview.PreviewGateway.FindToken | noeta/agent/host/preview_gateway.py:369-377 | the first mount that holds the root, else the session's |
| Preview.PreviewGateway.ReleaseRoot | noeta/agent/host/preview_gateway.py:333-349 | one root leaves its mount, which goes when it was the last |
| Preview.RunKeepsRegistry | noeta/agent/host/preview_gateway.py:299-384 | after any run with fresh tokens the two maps are inverse to each other and at most 64 mounts exist |
| Preview.PublishResolves | noeta/agent/host/preview_gateway.py:299-331 | the token a publisher gets resolves to its session, address and root, is never the one evicted, and is the session's only one |
| Preview.RejoinKeepsHeaders | noeta/agent/host/preview_gateway.py:308-316 | publishing again at the same address keeps token and age, keeps the headers unless new ones come, and adds the root |
| Preview.OnlySlashesGo | noeta/agent/host/preview_gateway.py:307-307 | an address loses the slashes at its end and nothing else |
| Preview.TokensAreOneAddress | noeta/agent/host/preview_gateway.py:299-384 | a minted token never changes its session or address, and once dropped never resolves again |
| Preview.HeldRoots | noeta/agent/host/preview_gateway.py:299-349 | after any run with fresh tokens a mount's roots are exactly those published for its session since its token was minted and not released from it since |
| Preview.ReleaseUnmountsExactly | noeta/agent/host/preview_gateway.py:333-349 | a release unmounts exactly when every other root still published and unreleased was last published before the token was minted |
| Preview.OneOtherRootDecides | noeta/agent/host/preview_gateway.py:333-349 | beside one other published, unreleased root it unmounts exactly when the token was minted after that root's last publish |
| Preview.RepublishForgets | noeta/agent/host/preview_gateway.py:318-331 | a session without a mount at the address, be it by a move, an eviction or an unmount, is mounted with the publishing root alone, and releasing that root unmounts it |
| Preview.ReplacedMountForgetsRoots | noeta/agent/host/preview_gateway.py:318-331 | a concrete run: after a change of address one release unmounts although another published root was never released |
| Sandbox.SandboxProvider.PickUnreservedPort | noeta/agent/host/sandbox_provider.py:708-723 | the first of ten offered ports that no listed container holds, or failure when all ten are held |
| Sandbox.SandboxProvider.Allocate | noeta/agent/host/sandbox_provider.py:261-310 | reuse of a running container that answers, else a clean provision on an unreserved port, with the reference recorded before anything can fail |
| Sandbox.SandboxProvider.Release | noeta/agent/host/sandbox_provider.py:312-335 | one root leaves its container, which is removed when it was the last; an unknown root falls back to the resolver |
| Sandbox.SandboxProvider.ForceRelease | noeta/agent/host/sandbox_provider.py:367-377 | the container, its handle and every root counted for it go |
| Sandbox.SandboxProvider.StopIdle | noeta/agent/host/sandbox_provider.py:379-397 | stops a running container and keeps it, its port and its references |
| Sandbox.SandboxProvider.Attach | noeta/agent/host/sandbox_provider.py:337-363 | running: the ref's address; stopped: restart; absent: rebuild at the ref's port |
| Sandbox.AllocatedIsLive | noeta/agent/host/sandbox_provider.py:261-310 | an allocation that succeeds reuses a running container that answered its probe, or leaves a new one running at the returned port that became ready; no other container is touched |
| Sandbox.StopKeepsEverything | noeta/agent/host/sandbox_provider.py:379-397 | a stop is reported exactly when a running container was stopped; every container, port and reference stays |
| Sandbox.AttachedIsLive | noeta/agent/host/sandbox_provider.py:337-363 | an attach that succeeds leaves the container running, untouched if it ran, started if it was stopped, built at the ref's port if it was absent |
| Sandbox.RunCounts | noeta/agent/host/sandbox_provider.py:261-377 | along every run of a fresh process, whatever containers it found, each root recorded for a container is in that container's root set |
| Sandbox.ReleaseSparesSharedContainers | noeta/agent/host/sandbox_provider.py:312-335 | after any run, and whatever the resolver answers, a release touches no other container and removes its own only when no other recorded root maps to it |
| Sandbox.MovedRootStillCounts | noeta/agent/host/sandbox_provider.py:261-335 | a root whose resolver answer changed still counts for its old container, so the last recorded root's release keeps it |
| Sandbox.HeldRoots | noeta/agent/host/sandbox_provider.py:261-377 | after any run a container's set holds exactly the roots allocated under it since it was last released by force and not released while the release was about it, and each root is recorded where its calls say |
| Sandbox.StrayMeansDisplaced | noeta/agent/host/sandbox_provider.py:261-377 | a root that counts for a container is not recorded for it exactly when it was allocated elsewhere since, or another container it counted for was released by force |
| Sandbox.StraysKeepContainers | noeta/agent/host/sandbox_provider.py:312-335 | a working release keeps its container exactly when another root counts for it, and where no other is recorded for it, exactly when such a stray does |
| Sandbox.ForceReleaseForgetsMoved | noeta/agent/host/sandbox_provider.py:367-377 | a concrete run: a root moves to a second container, the first is released by force, and the root counts for the second without being recorded |
| Sandbox.StepPorts | noeta/agent/host/sandbox_provider.py:591-657 | a step keeps all ports distinct exactly when it creates no container on a port another holds |
| Sandbox.ListedNeverCollides | noeta/agent/host/sandbox_provider.py:708-748 | an allocation that could list the containers never does |
| Sandbox.RunKeepsPorts | noeta/agent/host/sandbox_provider.py:261-397 | from any found containers on distinct ports, along every run with such allocations, and rebuilds that found their port free, all containers hold distinct ports, stopped ones included |
| Sandbox.RestartFindsItsPort | noeta/agent/host/sandbox_provider.py:562-589 | so a restart never meets another sandbox container on its port and fails only when docker or readiness does |
| Sandbox.RebuildStrandsAnother | noeta/agent/host/sandbox_provider.py:591-657 | a concrete run in which a rebuild takes a stopped container's port and that one cannot start again |
| Sandbox.RunBindsEachPortOnce | noeta/agent/host/sandbox_provider.py:261-397 | along every run, careful or not, no two running containers are bound to one port |
| Reaper.FoldActivity | noeta/agent/host/reaper.py:120-144 | one record per container with a task-bearing session, busy if any of them is, as fresh as the freshest |
| Reaper.VerdictIgnoresOrder | noeta/agent/host/reaper.py:120-144 | the verdict on a container depends on which rows there are, not on their order or number |
| Reaper.RemovingWins | noeta/agent/host/reaper.py:265-304 | a container is removed exactly when all its task-bearing sessions are idle past the removal threshold, stopped exactly when past the stopping threshold and not removed; a threshold of zero or less never acts |
| Reaper.ReclaimedByRows | noeta/agent/host/reaper.py:265-304 | what carrying out the verdict leaves of a container, by the rows: gone, stopped at its port, or as it was when neither threshold is passed or the call fails |
| Reaper.NewestDecides | noeta/agent/host/reaper.py:278-292 | the newest activity is past a threshold exactly when all of the container's activity is |
| Reaper.Sweep | noeta/agent/host/reaper.py:265-304 | every container ends as its own verdict says: removed past the long threshold, stopped past the short one, untouched when busy, unknown or fresh; a call that raises or fails changes no other container |

## Left out

- SseWire.ParseUIEvent: an id is read as a number only when it is decimal digits; JavaScript's `Number` also reads signs, exponents, hexadecimal and blanks. The server prints decimal digits only. How `Number` rounds from 2^53 on is a parameter.
- SseWire.WireRoundTrip: the body is the JSON text of the event's data, taken as a line without CR or LF, and "is a JSON object" is a parameter; JSON printing and parsing are not modelled.
- Translator.CollectFromMessages: dereferencing, text joining, stripping and clipping happen before the model; payloads arrive parsed. The question list and todo list are opaque.
- Replay.CollectInherited: the `_inherited` flag is not modelled, since the fold does not read it.
- Delivery.GapFreeExactlyOnce: frames travel as values; that they survive the text layer is SseWire.WireRoundTrip. A fork's inherited prefix and the streams of subtasks carry no seq and are covered as synthetic frames; fan-out out of order between threads of one stream is an assumption.
- Conversation.FoldEventKeepsKeys: argument and todo values are opaque strings, timestamps are copied, and validation of malformed frame data is left out.
- WsProxy.EncodeFrame: asks for a payload below 2^64 bytes, where `struct.pack` would raise; the reader's cap keeps the pump far below it.
- WsProxy.Pump: an error on the read side is an input that ends there; the send error is a destination that stops taking bytes. The handshake, its SHA-1 and base64, and the socket set-up are library work.
- Trace.Collect: streams are read as one snapshot per poll, which loses nothing because a poll reads each stream once.
- Trace.RawEvents: the final sort of the events by time is a permutation and not modelled; the events come stream by stream.
- Aggregate.BuildRows: row keys, labels and durations are presentation. Tool names that are property names of every JavaScript object, such as `constructor`, would be found in the family table by the code and are not by the model.
- Draft.MentionTrigger: slash commands, the send path and the mention side table are not modelled; a string is a sequence of characters, not of UTF-16 units, and every character the grammar tests is one unit.
- Preview.PreviewGateway.MountContainer: mounts are values in the map, so aliasing of a mount held across an eviction is not captured. The HTTP origin, `serve` and `close` are not modelled.
- Sandbox.SandboxProvider.Allocate: a handle is its port; mounts, environment, resource caps and authentication are left out. Queries of a container's state are taken to succeed; a listing that fails is a reply, and a raising docker binary is left out.
- Sandbox.SandboxProvider.Attach: the ref is taken as parsed, with a sandbox id under this prefix and a port.
- Reaper.Sweep: a missing provider, hour conversion and the patrol thread are left out; `updatedAt` is a real number.
- Threads and locks: each call of a registry or provider is one atomic step.
- The server's seeding window, preview HTTP relaying, stores, models, titles, memory, workspace files and everything rendered: plumbing and presentation that would only add easy members.
