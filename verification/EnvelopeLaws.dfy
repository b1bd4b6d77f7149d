/** From the log to the screen: what one envelope of a session makes the client show, through the
    translator and the reducer together (noeta/agent/host/translator.py, web/src/app/fold/conversation.ts). */
module EnvelopeLaws {
  import opened Collections
  import opened UIEvents
  import opened Translator
  import opened Conversation
  import opened FoldLaws

  // ---------------------------------------------------------------------------
  // Bodies
  // ---------------------------------------------------------------------------

  lemma {:induction false} BlocksConcat(a: seq<Block>, b: seq<Block>)
    ensures FromBlocks(a + b) == FromBlocks(a) + FromBlocks(b)
  {
    if b == [] {
      assert a + b == a;
    } else {
      assert (a + b)[..|a + b| - 1] == a + b[..|b| - 1];
      BlocksConcat(a, b[..|b| - 1]);
    }
  }

  /** A body says what its messages say, in order. */
  lemma {:induction false} BodyConcat(a: seq<Message>, b: seq<Message>)
    ensures FromMessages(a + b) == FromMessages(a) + FromMessages(b)
  {
    hide FromMessage;
    if b == [] {
      assert a + b == a;
    } else {
      assert (a + b)[..|a + b| - 1] == a + b[..|b| - 1];
      BodyConcat(a, b[..|b| - 1]);
    }
  }

  lemma {:induction false} BlocksSay(blocks: seq<Block>, e: Event)
    ensures e in FromBlocks(blocks)
       <==> (e.AssistantText? && e.text != "" && TextBlock(e.text) in blocks)
            || (e.SkillActivated? && e.skill != "" && SkillUse(e.skill) in blocks)
  {
    if blocks != [] {
      BlocksSay(blocks[..|blocks| - 1], e);
      assert blocks == blocks[..|blocks| - 1] + [blocks[|blocks| - 1]];
    }
  }

  /** Some message of an assistant holds the block. */
  ghost predicate Says(messages: seq<Message>, b: Block) {
    exists m :: m in messages && SaidBy(m, b)
  }

  predicate SaidBy(m: Message, b: Block) {
    m.FromAssistant? && b in m.blocks
  }

  /** What a body shows, and nothing else: the non-empty texts and skills of the assistant, recalls that are
      not empty, what the user typed or attached; no host-injected text and no tool receipt. */
  lemma {:induction false} BodySays(messages: seq<Message>, e: Event)
    ensures e in FromMessages(messages)
       <==> (e.AssistantText? && e.text != "" && Says(messages, TextBlock(e.text)))
            || (e.SkillActivated? && e.skill != "" && Says(messages, SkillUse(e.skill)))
            || (e.RecallText? && e.text != "" && Recalled(e.text) in messages)
            || (e.UserMessage? && (e.content != "" || e.images != []) && Typed(e.content, e.images) in messages)
  {
    if messages != [] {
      var front, last := messages[..|messages| - 1], messages[|messages| - 1];
      assert messages == front + [last];
      BodySays(front, e);
      if last.FromAssistant? { BlocksSay(last.blocks, e); }
      forall b ensures Says(messages, b) <==> Says(front, b) || SaidBy(last, b) { SaysSnoc(front, last, b); }
      hide Says;
    }
  }

  lemma SaysSnoc(front: seq<Message>, last: Message, b: Block)
    ensures Says(front + [last], b) <==> Says(front, b) || SaidBy(last, b)
  {
  }

  // ---------------------------------------------------------------------------
  // Envelopes of one event
  // ---------------------------------------------------------------------------

  /** The envelope yields one frame, stamped with its seq, task and clock. */
  predicate Yields(env: Envelope, e: Event) {
    Translate(env) == [Frame(Some(env.seqNo), Some(env.taskId), env.occurredAt, e)]
  }

  predicate YieldsNothing(env: Envelope) {
    Translate(env) == []
  }

  /** Results, todos, questions, subtasks and marks reach the client as they were recorded; a call of one of
      the four memory tools is told by what follows `memory_` in its name, any other as a call. */
  lemma EnvelopeYields(env: Envelope)
    ensures match env.payload
            case AssistantThinkingRecorded(text) =>
              if text == "" then YieldsNothing(env) else Yields(env, ThinkingText(text))
            case ToolCallStarted(callId, tool, args, subject) =>
              && (forall op :: op in ["write", "read", "search", "archive"] && tool == "memory_" + op ==>
                    Yields(env, MemoryOp(callId, op, subject)))
              && ((forall op :: op in ["write", "read", "search", "archive"] ==> tool != "memory_" + op) ==>
                    Yields(env, ToolCall(callId, tool, args, None)))
            case ToolResultRecorded(callId, success, summary, output) =>
              Yields(env, ToolResult(callId, success, summary, output))
            case TaskStatePatched(None) => YieldsNothing(env)
            case TaskStatePatched(Some(todos)) => Yields(env, TodoUpdate(todos))
            case UserQuestionRequested(id, reason, questions) => Yields(env, QuestionAsked(id, reason, questions))
            case UserQuestionAnswered(id) => Yields(env, QuestionAnswered(id))
            case UserQuestionWithdrawn(id) => Yields(env, QuestionWithdrawn(id))
            case SubtaskSpawned(id, agent, goal) => Yields(env, SubtaskStarted(id, agent, goal))
            case BackgroundSubagentStarted(id, agent, goal) => Yields(env, SubtaskStarted(id, agent, goal))
            case BackgroundSubagentDelivered(id, outcome, summary) => Yields(env, SubtaskFinished(id, outcome, summary))
            case SubtaskCompleted(id, outcome, summary) => Yields(env, SubtaskFinished(id, outcome, summary))
            case Compacted(n) => Yields(env, Compaction(n))
            case LLMRetryScheduled(callId) => Yields(env, LlmRetry(callId))
            case TaskStarted => Yields(env, TurnStarted)
            case TaskWoken => Yields(env, TurnStarted)
            case TaskRewound(target) => Yields(env, Rewind(target))
            case TurnInterruptMark => YieldsNothing(env)
            case OtherPayload(_) => YieldsNothing(env)
            case _ => true
  {
    if env.payload.ToolCallStarted? {
      MemoryNames(env.payload.toolName);
    }
    hide MemoryOpOf;
    hide FromMessages;
    hide FromSuspend;
  }

  lemma MemoryNames(tool: string)
    ensures forall op :: op in ["write", "read", "search", "archive"] && tool == "memory_" + op ==>
              MemoryOpOf(tool) == Some(op)
    ensures (forall op :: op in ["write", "read", "search", "archive"] ==> tool != "memory_" + op) ==>
              MemoryOpOf(tool) == None
  {
    var ops := ["write", "read", "search", "archive"];
    assert ops[0] == "write" && ops[1] == "read" && ops[2] == "search" && ops[3] == "archive";
    assert "memory_" + ops[0] == "memory_write" && "memory_" + ops[1] == "memory_read";
    assert "memory_" + ops[2] == "memory_search" && "memory_" + ops[3] == "memory_archive";
    assert forall i, j :: 0 <= i < j < 4 ==> ops[i] != ops[j];
  }

  /** How a task comes to rest, as the client tells it: a turn that ends says how; a suspension for a
      subtask or a question does not end the turn, a failing one says why if it knows. */
  function RestOf(p: Payload): Option<Outcome> {
    match p
    case TaskCompleted => Some(Outcome(TurnCompleted, None))
    case TaskCancelled => Some(Outcome(TurnCancelled, None))
    case TaskSuspended(wakeOn, kind, detail) =>
      if wakeOn.tag in ["subtask_group_completed", "subtask_completed"] then None
      else if wakeOn.handle.Some? && "question-" <= wakeOn.handle.value then None
      else
        (match kind
         case SuspendedByInterrupt => Some(Outcome(TurnInterrupted, None))
         case SuspendedByFailure => Some(Outcome(TurnFailedResumable, if detail == "" then None else Some(detail)))
         case SuspendedOtherwise => Some(Outcome(AwaitingInput, None)))
    case _ => None
  }

  /** A completed, cancelled or suspended task leaves the client at rest with that outcome, no preview and
      no gate, and every item closed accordingly; a suspension that does not end the turn changes nothing. */
  lemma EnvelopeRests(s: State, env: Envelope)
    requires env.seqNo > CursorAt(s.cursors, env.taskId)
    requires env.payload.TaskCompleted? || env.payload.TaskCancelled? || env.payload.TaskSuspended?
    ensures var after, rest := FoldEvents(s, Translate(env)), RestOf(env.payload);
            if rest.None? then after == s
            else
              && !after.running && after.delta == None && after.pendingQuestionId == None && after.lastOutcome == rest
              && |after.items| == |s.items|
              && forall i :: 0 <= i < |s.items| ==> ClosedBy(rest.value.status, s.items[i], after.items[i])
  {
    var rest := RestOf(env.payload);
    RestYields(env);
    hide Translate;
    hide RestOf;
    if rest.None? {
      assert FoldEvents(s, []) == s;
    } else {
      var f := Frame(Some(env.seqNo), Some(env.taskId), env.occurredAt,
                     TurnFinished(rest.value.status, rest.value.reason));
      assert FoldEvents(s, [f]) == FoldEvent(s, f) by { assert [f][..0] == []; }
      EndOfTurnCloses(s, f);
      hide FoldEvent;
      hide ClosedBy;
    }
  }

  lemma RestYields(env: Envelope)
    requires env.payload.TaskCompleted? || env.payload.TaskCancelled? || env.payload.TaskSuspended?
    ensures match RestOf(env.payload)
            case None => Translate(env) == []
            case Some(rest) => Yields(env, TurnFinished(rest.status, rest.reason))
  {
    if env.payload.TaskSuspended? {
      var tag := env.payload.wakeOn.tag;
      var tags := ["subtask_group_completed", "subtask_completed"];
      assert tag in tags <==> tag == tags[0] || tag == tags[1];
    }
  }

  // ---------------------------------------------------------------------------
  // A subtask's stream
  // ---------------------------------------------------------------------------

  /** Of a subtask the client is shown its calls, memory tools included, under its card, their results, and
      its cancellation, all without a seq, on the parent's stream. */
  lemma SubtaskYields(env: Envelope, subtaskId: string, root: string)
    ensures TranslateSubtask(env, subtaskId, root)
         == match env.payload
            case ToolCallStarted(callId, tool, args, _) =>
              [Frame(None, Some(root), None, ToolCall(callId, tool, args, Some(subtaskId)))]
            case ToolResultRecorded(callId, success, summary, output) =>
              [Frame(None, Some(root), None, ToolResult(callId, success, summary, output))]
            case TaskCancelled => [Frame(None, Some(root), None, SubtaskFinished(subtaskId, "cancelled", ""))]
            case _ => []
  {
  }
}
