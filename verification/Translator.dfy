/** Engine envelopes to UI frames (noeta/agent/host/translator.py). */
module Translator {
  import opened Collections
  import opened UIEvents

  /** A wake condition, read structurally: its canonical tag and its handle, if any. */
  datatype WakeOn = WakeOn(tag: string, handle: Option<string>)

  /** The kind half of a parsed `"<kind>: <detail>"` suspend tag. */
  datatype SuspendKind = SuspendedByInterrupt | SuspendedByFailure | SuspendedOtherwise

  datatype Block =
    | TextBlock(text: string)
    | SkillUse(skill: string)
    | OtherBlock

  /** One message of a `MessagesAppended` body, texts already stripped. */
  datatype Message =
    | Recalled(text: string)
    | Typed(text: string, images: seq<string>)
    | HostInjected
    | FromAssistant(blocks: seq<Block>)
    | FromTool

  datatype Payload =
    | MessagesAppended(messages: seq<Message>)
    | AssistantThinkingRecorded(thinking: string)
    | ToolCallStarted(callId: string, toolName: string, args: string, subject: string)
    | ToolResultRecorded(callId: string, success: bool, summary: string, output: string)
    | TaskStatePatched(setTodos: Option<seq<string>>)
    | UserQuestionRequested(questionId: string, reason: string, questions: seq<string>)
    | UserQuestionAnswered(questionId: string)
    | UserQuestionWithdrawn(questionId: string)
    | SubtaskSpawned(subtaskId: string, agentName: string, goal: string)
    | BackgroundSubagentStarted(subtaskId: string, agentName: string, goal: string)
    | BackgroundSubagentDelivered(subtaskId: string, outcome: string, summary: string)
    | SubtaskCompleted(subtaskId: string, outcome: string, summary: string)
    | Compacted(replacedCount: int)
    | LLMRetryScheduled(callId: string)
    | TaskStarted
    | TaskWoken
    | TaskSuspended(wakeOn: WakeOn, kind: SuspendKind, detail: string)
    | TurnInterruptMark
    | TaskCancelled
    | TaskFailed(failure: string)
    | TaskCompleted
    | TaskRewound(targetSeq: int)
    | OtherPayload(typeName: string)

  datatype Envelope = Envelope(seqNo: nat, taskId: string, occurredAt: Option<int>, payload: Payload)

  const QUESTION_WAKE_PREFIX := "question-"

  predicate IsSubtaskBarrier(w: WakeOn) {
    w.tag == "subtask_group_completed" || w.tag == "subtask_completed"
  }

  predicate IsQuestionWake(w: WakeOn) {
    w.handle.Some? && QUESTION_WAKE_PREFIX <= w.handle.value
  }

  function MemoryOpOf(toolName: string): Option<string> {
    if toolName == "memory_write" then Some("write")
    else if toolName == "memory_read" then Some("read")
    else if toolName == "memory_search" then Some("search")
    else if toolName == "memory_archive" then Some("archive")
    else None
  }

  function FromBlock(b: Block): seq<Event> {
    match b
    case TextBlock(text) => if text != "" then [AssistantText(text)] else []
    case SkillUse(skill) => if skill != "" then [SkillActivated(skill)] else []
    case OtherBlock => []
  }

  function FromBlocks(blocks: seq<Block>): seq<Event> {
    if blocks == [] then [] else FromBlocks(blocks[..|blocks| - 1]) + FromBlock(blocks[|blocks| - 1])
  }

  function FromMessage(m: Message): seq<Event> {
    match m
    case Recalled(text) => if text != "" then [RecallText(text)] else []
    case Typed(text, images) => if text != "" || images != [] then [UserMessage(text, images)] else []
    case HostInjected => []
    case FromAssistant(blocks) => FromBlocks(blocks)
    case FromTool => []
  }

  function FromMessages(messages: seq<Message>): seq<Event> {
    if messages == [] then []
    else FromMessages(messages[..|messages| - 1]) + FromMessage(messages[|messages| - 1])
  }

  /** The appending loop over a body. */
  method CollectFromMessages(messages: seq<Message>) returns (events: seq<Event>)
    ensures events == FromMessages(messages)
  {
    events := [];
    for i := 0 to |messages|
      invariant events == FromMessages(messages[..i])
    {
      assert messages[..i + 1][..i] == messages[..i];
      match messages[i] {
        case Recalled(text) =>
          if text != "" { events := events + [RecallText(text)]; }
        case Typed(text, images) =>
          if text != "" || images != [] { events := events + [UserMessage(text, images)]; }
        case FromAssistant(blocks) =>
          var said := CollectFromBlocks(blocks);
          events := events + said;
        case _ =>
      }
    }
    assert messages[..|messages|] == messages;
  }

  /** The inner loop over the blocks of one assistant message. */
  method CollectFromBlocks(blocks: seq<Block>) returns (events: seq<Event>)
    ensures events == FromBlocks(blocks)
  {
    events := [];
    for j := 0 to |blocks|
      invariant events == FromBlocks(blocks[..j])
    {
      assert blocks[..j + 1][..j] == blocks[..j];
      match blocks[j] {
        case TextBlock(text) =>
          if text != "" { events := events + [AssistantText(text)]; }
        case SkillUse(skill) =>
          if skill != "" { events := events + [SkillActivated(skill)]; }
        case OtherBlock =>
      }
    }
    assert blocks[..|blocks|] == blocks;
  }

  function FromSuspend(wakeOn: WakeOn, kind: SuspendKind, detail: string): seq<Event> {
    if IsSubtaskBarrier(wakeOn) then []
    else if IsQuestionWake(wakeOn) then []
    else match kind
      case SuspendedByInterrupt => [TurnFinished(TurnInterrupted, None)]
      case SuspendedByFailure =>
        [TurnFinished(TurnFailedResumable, if detail != "" then Some(detail) else None)]
      case SuspendedOtherwise => [TurnFinished(AwaitingInput, None)]
  }

  function RootEvents(p: Payload): seq<Event> {
    match p
    case MessagesAppended(messages) => FromMessages(messages)
    case AssistantThinkingRecorded(thinking) => if thinking != "" then [ThinkingText(thinking)] else []
    case ToolCallStarted(callId, toolName, args, subject) =>
      (match MemoryOpOf(toolName)
       case Some(op) => [MemoryOp(callId, op, subject)]
       case None => [ToolCall(callId, toolName, args, None)])
    case ToolResultRecorded(callId, success, summary, output) => [ToolResult(callId, success, summary, output)]
    case TaskStatePatched(setTodos) => if setTodos.Some? then [TodoUpdate(setTodos.value)] else []
    case UserQuestionRequested(id, reason, questions) => [QuestionAsked(id, reason, questions)]
    case UserQuestionAnswered(id) => [QuestionAnswered(id)]
    case UserQuestionWithdrawn(id) => [QuestionWithdrawn(id)]
    case SubtaskSpawned(id, agent, goal) => [SubtaskStarted(id, agent, goal)]
    case BackgroundSubagentStarted(id, agent, goal) => [SubtaskStarted(id, agent, goal)]
    case BackgroundSubagentDelivered(id, outcome, summary) => [SubtaskFinished(id, outcome, summary)]
    case SubtaskCompleted(id, outcome, summary) => [SubtaskFinished(id, outcome, summary)]
    case Compacted(n) => [Compaction(n)]
    case LLMRetryScheduled(callId) => [LlmRetry(callId)]
    case TaskStarted => [TurnStarted]
    case TaskWoken => [TurnStarted]
    case TaskSuspended(wakeOn, kind, detail) => FromSuspend(wakeOn, kind, detail)
    case TaskCancelled => [TurnFinished(TurnCancelled, None)]
    case TaskFailed(failure) => [ErrorNotice(failure), TurnFinished(TurnFailedForGood, None)]
    case TaskCompleted => [TurnFinished(TurnCompleted, None)]
    case TaskRewound(target) => [Rewind(target)]
    case TurnInterruptMark => []
    case OtherPayload(_) => []
  }

  function SubtaskEvents(p: Payload, subtaskId: string): seq<Event> {
    match p
    case ToolCallStarted(callId, toolName, args, _) => [ToolCall(callId, toolName, args, Some(subtaskId))]
    case ToolResultRecorded(callId, success, summary, output) => [ToolResult(callId, success, summary, output)]
    case TaskCancelled => [SubtaskFinished(subtaskId, "cancelled", "")]
    case _ => []
  }

  function Stamped(events: seq<Event>, seqNo: Option<nat>, task: Option<string>, ts: Option<int>): seq<Frame> {
    seq(|events|, i requires 0 <= i < |events| => Frame(seqNo, task, ts, events[i]))
  }

  /** The frames of one envelope of the session's own stream. */
  function Translate(env: Envelope): seq<Frame> {
    Stamped(RootEvents(env.payload), Some(env.seqNo), Some(env.taskId), env.occurredAt)
  }

  /** The frames of one envelope of a subtask stream, tagged with the root stream by the hub. */
  function TranslateSubtask(env: Envelope, subtaskId: string, root: string): seq<Frame> {
    Stamped(SubtaskEvents(env.payload, subtaskId), None, Some(root), None)
  }

  /** An envelope that is announced as the parent of a child stream. */
  function SpawnOf(env: Envelope): Option<string> {
    match env.payload
    case SubtaskSpawned(id, _, _) => if id != "" then Some(id) else None
    case BackgroundSubagentStarted(id, _, _) => if id != "" then Some(id) else None
    case _ => None
  }

  // ---------------------------------------------------------------------------
  // A session's own stream
  // ---------------------------------------------------------------------------

  /** What dedup by seq leaves of one envelope: its first frame, if it produces any. */
  function FirstFrame(env: Envelope): (frames: seq<Frame>)
    ensures |frames| <= 1
    ensures frames != [] ==> frames[0].seqNo == Some(env.seqNo) && frames[0].task == Some(env.taskId)
  {
    if Translate(env) == [] then [] else [Translate(env)[0]]
  }

  /** The first frame of every frame-producing envelope, in order. */
  function FirstFrames(log: seq<Envelope>): seq<Frame> {
    if log == [] then [] else FirstFrames(log[..|log| - 1]) + FirstFrame(log[|log| - 1])
  }

  /** A session's own stream: one task, seqs strictly increasing. */
  ghost predicate IsStream(task: string, log: seq<Envelope>) {
    && (forall i :: 0 <= i < |log| ==> log[i].taskId == task)
    && (forall i, j :: 0 <= i < j < |log| ==> log[i].seqNo < log[j].seqNo)
  }

  /** Every frame of a stream, in the order they are handed to the hub. */
  function AllFrames(log: seq<Envelope>): seq<Frame> {
    if log == [] then [] else AllFrames(log[..|log| - 1]) + Translate(log[|log| - 1])
  }

  /** Every frame of a stream is durable, tagged with its task, and numbered by an envelope of the log. */
  lemma {:induction false} FramesAreStamped(task: string, log: seq<Envelope>)
    requires IsStream(task, log)
    ensures forall f :: f in AllFrames(log) ==>
              && f.seqNo.Some? && f.task == Some(task)
              && exists i :: 0 <= i < |log| && f.seqNo == Some(log[i].seqNo)
  {
    if log != [] {
      var front := log[..|log| - 1];
      FramesAreStamped(task, front);
      forall f | f in AllFrames(front) ensures exists i :: 0 <= i < |log| && f.seqNo == Some(log[i].seqNo) {
        var i :| 0 <= i < |front| && f.seqNo == Some(front[i].seqNo);
        assert log[i] == front[i];
      }
    }
  }

  /** Several frames share one seq only for an appended body or a failure, so only then
      does "the first frame of each seq" drop anything. */
  lemma ManyFramesOnlyFromBodies(env: Envelope)
    requires |Translate(env)| > 1
    ensures env.payload.MessagesAppended? || env.payload.TaskFailed?
  {
  }

  /** What dedup by seq costs a failed task: the error survives, the turn end behind it is never applied. */
  lemma FailureShowsItsErrorFirst(env: Envelope)
    requires env.payload.TaskFailed?
    ensures |Translate(env)| == 2
    ensures Translate(env)[0].event == ErrorNotice(env.payload.failure)
    ensures Translate(env)[1].event == TurnFinished(TurnFailedForGood, None)
    ensures Translate(env)[0].seqNo == Translate(env)[1].seqNo == Some(env.seqNo)
  {
  }

  // ---------------------------------------------------------------------------
  // Subtasks
  // ---------------------------------------------------------------------------

  lemma {:induction false} BlocksStartNoSubtask(blocks: seq<Block>)
    ensures forall e :: e in FromBlocks(blocks) ==> e.AssistantText? || e.SkillActivated?
  {
    if blocks != [] {
      BlocksStartNoSubtask(blocks[..|blocks| - 1]);
    }
  }

  lemma {:induction false} BodiesStartNoSubtask(messages: seq<Message>)
    ensures forall e :: e in FromMessages(messages) ==>
              e.AssistantText? || e.SkillActivated? || e.RecallText? || e.UserMessage?
  {
    if messages != [] {
      var front, last := messages[..|messages| - 1], messages[|messages| - 1];
      BodiesStartNoSubtask(front);
      if last.FromAssistant? { BlocksStartNoSubtask(last.blocks); }
    }
  }

  /** An envelope announces a stream exactly when it opens that subtask's card, in either of the two ways
      the engine starts one. */
  lemma SpawnsShowCards(env: Envelope, id: string)
    requires id != ""
    ensures SpawnOf(env) == Some(id)
       <==> exists e :: e in RootEvents(env.payload) && e.SubtaskStarted? && e.subtaskId == id
    ensures SpawnOf(env) != Some("")
  {
    if env.payload.MessagesAppended? { BodiesStartNoSubtask(env.payload.messages); }
    if SpawnOf(env) == Some(id) {
      assert RootEvents(env.payload)[0].SubtaskStarted? && RootEvents(env.payload)[0] in RootEvents(env.payload);
    }
  }

  lemma CardIsAlone(p: Payload, id: string)
    requires exists e :: e in RootEvents(p) && e.SubtaskStarted? && e.subtaskId == id
    ensures |RootEvents(p)| == 1
  {
    if p.MessagesAppended? { BodiesStartNoSubtask(p.messages); }
  }
}
