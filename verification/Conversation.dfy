/** The client's reducer over wire frames, and its streaming preview buffer
    (web/src/app/fold/conversation.ts, web/src/app/fold/delta-buffer.ts). */
module Conversation {
  import opened Collections
  import opened UIEvents

  datatype StepStatus = StepRunning | StepSucceeded | StepFailed | StepCancelled

  datatype SubtaskStatus = SubtaskRunning | SubtaskEnded(outcome: string)

  datatype Item =
    | UserItem(key: int, taskId: Option<string>, ts: Option<int>, content: string, images: seq<string>, pending: bool)
    | AssistantItem(key: int, taskId: Option<string>, ts: Option<int>, text: string)
    | ThinkingItem(key: int, taskId: Option<string>, ts: Option<int>, text: string)
    | RecallItem(key: int, taskId: Option<string>, ts: Option<int>, text: string)
    | StepItem(key: int, taskId: Option<string>, ts: Option<int>, callId: string, toolName: string, args: string,
               stepStatus: StepStatus, stepSummary: Option<string>, output: Option<string>, ofSubtask: Option<string>)
    | MemoryItem(key: int, taskId: Option<string>, ts: Option<int>, callId: string, op: string, name: string)
    | SkillItem(key: int, taskId: Option<string>, ts: Option<int>, skill: string)
    | TodosItem(key: int, taskId: Option<string>, ts: Option<int>, todos: seq<string>)
    | SubtaskItem(key: int, taskId: Option<string>, ts: Option<int>, subtaskId: string, agentName: string, goal: string,
                  cardStatus: SubtaskStatus, cardSummary: Option<string>)
    | QuestionItem(key: int, taskId: Option<string>, ts: Option<int>, questionId: string, reason: string,
                   questions: seq<string>, answered: bool, withdrawn: bool)
    | CompactionItem(key: int, taskId: Option<string>, ts: Option<int>, replacedCount: int)
    | ErrorItem(key: int, taskId: Option<string>, ts: Option<int>, message: string)

  datatype Outcome = Outcome(status: TurnStatus, reason: Option<string>)

  // ---------------------------------------------------------------------------
  // The streaming preview buffer
  // ---------------------------------------------------------------------------

  datatype DeltaBlock = DeltaBlock(kind: DeltaKind, text: string)

  datatype DeltaState = DeltaState(callId: string, blocks: map<int, DeltaBlock>)

  function ApplyDelta(state: Option<DeltaState>, callId: string, kind: DeltaKind, text: string,
                      index: int): Option<DeltaState> {
    if callId == "" then state
    else if state.None? || state.value.callId != callId then
      Some(DeltaState(callId, map[index := DeltaBlock(kind, text)]))
    else
      var blocks := state.value.blocks;
      var next :=
        if index in blocks && blocks[index].kind == kind then DeltaBlock(kind, blocks[index].text + text)
        else DeltaBlock(kind, text);
      Some(DeltaState(callId, blocks[index := next]))
  }

  function ResetCall(state: Option<DeltaState>, callId: string): Option<DeltaState> {
    if state.Some? && state.value.callId == callId then None else state
  }

  // ---------------------------------------------------------------------------
  // State
  // ---------------------------------------------------------------------------

  datatype State = State(
    items: seq<Item>,
    running: bool,
    lastSeq: int,
    cursors: map<string, int>,
    delta: Option<DeltaState>,
    title: Option<string>,
    replayDone: bool,
    pendingQuestionId: Option<string>,
    lastOutcome: Option<Outcome>,
    nextKey: int)

  const INITIAL := State([], false, -1, map[], None, None, false, None, None, -1)

  function ScopeOf(f: Frame): string {
    if f.task.Some? then f.task.value else ""
  }

  function CursorAt(cursors: map<string, int>, scope: string): int {
    if scope in cursors then cursors[scope] else -1
  }

  ghost predicate IsLowest(values: set<int>, v: int) {
    v in values && forall w :: w in values ==> v <= w
  }

  lemma {:induction false} LowestExists(values: set<int>, v: int)
    requires v in values
    ensures exists lowest :: IsLowest(values, lowest)
    decreases values
  {
    if !IsLowest(values, v) {
      var w :| w in values && w < v;
      var below := set x | x in values && x < v;
      assert w in below && v !in below;
      LowestExists(below, w);
      var lowest :| IsLowest(below, lowest);
      assert forall x :: x in values ==> x >= v || x in below;
      assert IsLowest(values, lowest);
    }
  }

  /** What a reconnect resumes from: the least of the cursors, -1 for an empty map. */
  function LowestCursor(cursors: map<string, int>): (lowest: int)
    ensures cursors == map[] ==> lowest == -1
    ensures forall scope :: scope in cursors ==> lowest <= cursors[scope]
    ensures cursors != map[] ==> exists scope :: scope in cursors && cursors[scope] == lowest
  {
    if cursors == map[] then -1
    else
      var values := cursors.Values;
      assert exists lowest :: IsLowest(values, lowest) by {
        var scope :| scope in cursors;
        assert cursors[scope] in values;
        LowestExists(values, cursors[scope]);
      }
      var v :| v in values && forall w :: w in values ==> v <= w;
      assert forall scope :: scope in cursors ==> cursors[scope] in values;
      v
  }

  // ---------------------------------------------------------------------------
  // List surgery
  // ---------------------------------------------------------------------------

  /** The index of the last item satisfying `p`, or -1. */
  function FindLast(items: seq<Item>, p: Item -> bool): (i: int)
    ensures -1 <= i < |items|
    ensures i >= 0 ==> p(items[i])
    ensures forall j :: i < j < |items| ==> !p(items[j])
  {
    if items == [] then -1
    else if p(items[|items| - 1]) then |items| - 1
    else FindLast(items[..|items| - 1], p)
  }

  function MapItems(items: seq<Item>, f: Item -> Item): seq<Item> {
    seq(|items|, i requires 0 <= i < |items| => f(items[i]))
  }

  predicate Exists(items: seq<Item>, p: Item -> bool) {
    FindLast(items, p) >= 0
  }

  function KeyFor(nextKey: int, f: Frame): int {
    if f.seqNo.Some? then f.seqNo.value else nextKey
  }

  function NextKeyAfter(nextKey: int, f: Frame): int {
    if f.seqNo.Some? then nextKey else nextKey - 1
  }

  function IsEcho(content: string, task: Option<string>): Item -> bool {
    (it: Item) =>
      it.UserItem? && it.pending && it.key < 0 && it.content == content && (it.taskId == None || it.taskId == task)
  }

  function IsStepOf(callId: string): Item -> bool {
    (it: Item) => it.StepItem? && it.callId == callId
  }

  function IsRunningStepOf(callId: string): Item -> bool {
    (it: Item) => it.StepItem? && it.callId == callId && it.stepStatus == StepRunning
  }

  function IsUser(): Item -> bool {
    (it: Item) => it.UserItem?
  }

  function IsTodos(): Item -> bool {
    (it: Item) => it.TodosItem?
  }

  function IsCardOf(subtaskId: string): Item -> bool {
    (it: Item) => it.SubtaskItem? && it.subtaskId == subtaskId
  }

  function IsRunningCardOf(subtaskId: string): Item -> bool {
    (it: Item) => it.SubtaskItem? && it.subtaskId == subtaskId && it.cardStatus == SubtaskRunning
  }

  function IsQuestionOf(questionId: string): Item -> bool {
    (it: Item) => it.QuestionItem? && it.questionId == questionId
  }

  // ---------------------------------------------------------------------------
  // Closing a turn
  // ---------------------------------------------------------------------------

  /** What a finished turn does to one item it left open. */
  function ForceClose(status: TurnStatus): Item -> Item {
    (it: Item) =>
      if it.StepItem? && it.stepStatus == StepRunning && status.TurnCancelled? then it.(stepStatus := StepCancelled)
      else if it.StepItem? && it.stepStatus == StepRunning && status.TurnFailedForGood? then
        it.(stepStatus := StepFailed)
      else if it.SubtaskItem? && it.cardStatus == SubtaskRunning && status.TurnCancelled? then
        it.(cardStatus := SubtaskEnded("cancelled"))
      else if it.QuestionItem? && !it.answered && !it.withdrawn then it.(withdrawn := true)
      else it
  }

  // ---------------------------------------------------------------------------
  // Rewinding
  // ---------------------------------------------------------------------------

  /** Rule 1: items with a key past the target go. */
  function AtOrBefore(target: int): Item -> bool {
    (it: Item) => !(it.key >= 0 && it.key > target)
  }

  function CardIds(items: seq<Item>): set<string> {
    set it | it in items && it.SubtaskItem? :: it.subtaskId
  }

  /** Rule 2: a synthetic step lives and dies with its subtask's card. */
  function Anchored(live: set<string>): Item -> bool {
    (it: Item) => !(it.key < 0 && it.StepItem? && it.ofSubtask.Some? && it.ofSubtask.value !in live)
  }

  /** Rule 3: an unacknowledged send belongs to the undone span. */
  function Acknowledged(): Item -> bool {
    (it: Item) => !(it.UserItem? && it.pending)
  }

  function Truncate(items: seq<Item>, target: int): seq<Item> {
    var survivors := Filter(AtOrBefore(target), items);
    var kept := Filter(Anchored(CardIds(survivors)), survivors);
    Filter(Acknowledged(), kept)
  }

  // ---------------------------------------------------------------------------
  // The reducer
  // ---------------------------------------------------------------------------

  /** What one frame does to the item list. */
  datatype Edit =
    | Unchanged
    | Appended(item: Item)
    | Replaced(index: nat, item: Item)
    | Closed(status: TurnStatus)
    | Truncated(target: int)

  function Edited(items: seq<Item>, e: Edit): seq<Item> {
    match e
    case Unchanged => items
    case Appended(item) => items + [item]
    case Replaced(index, item) => if index < |items| then items[index := item] else items
    case Closed(status) => MapItems(items, ForceClose(status))
    case Truncated(target) => Truncate(items, target)
  }

  function UserMessageEdit(items: seq<Item>, nextKey: int, f: Frame, content: string, images: seq<string>): Edit {
    var item := UserItem(KeyFor(nextKey, f), f.task, f.ts, content, images, false);
    var index := FindLast(items, IsEcho(content, f.task));
    if index == -1 then Appended(item) else Replaced(index, item)
  }

  function ToolCallEdit(items: seq<Item>, nextKey: int, f: Frame, callId: string, toolName: string, args: string,
                        ofSubtask: Option<string>): Edit {
    if Exists(items, IsStepOf(callId)) then Unchanged
    else
      Appended(StepItem(KeyFor(nextKey, f), f.task, f.ts, callId, toolName, args, StepRunning, None, None, ofSubtask))
  }

  function ToolResultEdit(items: seq<Item>, callId: string, success: bool, summary: string, output: string): Edit {
    var index := FindLast(items, IsRunningStepOf(callId));
    if index == -1 then Unchanged
    else Replaced(index, items[index].(stepStatus := if success then StepSucceeded else StepFailed,
                                         stepSummary := Some(summary), output := Some(output)))
  }

  function TodosEdit(items: seq<Item>, nextKey: int, f: Frame, todos: seq<string>): Edit {
    var index := FindLast(items, IsTodos());
    if index > FindLast(items, IsUser()) then Replaced(index, items[index].(todos := todos))
    else Appended(TodosItem(KeyFor(nextKey, f), f.task, f.ts, todos))
  }

  function SubtaskStartedEdit(items: seq<Item>, nextKey: int, f: Frame, subtaskId: string, agentName: string,
                              goal: string): Edit {
    if Exists(items, IsCardOf(subtaskId)) then Unchanged
    else Appended(SubtaskItem(KeyFor(nextKey, f), f.task, f.ts, subtaskId, agentName, goal, SubtaskRunning, None))
  }

  function SubtaskFinishedEdit(items: seq<Item>, nextKey: int, f: Frame, subtaskId: string, outcome: string,
                               summary: string): Edit {
    var index := FindLast(items, IsRunningCardOf(subtaskId));
    if index >= 0 then
      Replaced(index, items[index].(cardStatus := SubtaskEnded(outcome), cardSummary := Some(summary)))
    else
      Appended(SubtaskItem(KeyFor(nextKey, f), f.task, f.ts, subtaskId, "", "", SubtaskEnded(outcome), Some(summary)))
  }

  function QuestionEndEdit(items: seq<Item>, questionId: string, withAnswer: bool): Edit {
    var index := FindLast(items, IsQuestionOf(questionId));
    if index == -1 then Unchanged
    else if withAnswer then Replaced(index, items[index].(answered := true))
    else Replaced(index, items[index].(withdrawn := true))
  }

  /** The item-list half of the reducer. */
  function EditOf(items: seq<Item>, nextKey: int, f: Frame): Edit {
    var key := KeyFor(nextKey, f);
    match f.event
    case UserMessage(content, images) => UserMessageEdit(items, nextKey, f, content, images)
    case AssistantText(text) => Appended(AssistantItem(key, f.task, f.ts, text))
    case ThinkingText(text) => Appended(ThinkingItem(key, f.task, f.ts, text))
    case RecallText(text) => Appended(RecallItem(key, f.task, f.ts, text))
    case ToolCall(callId, toolName, args, ofSubtask) =>
      ToolCallEdit(items, nextKey, f, callId, toolName, args, ofSubtask)
    case ToolResult(callId, success, summary, output) => ToolResultEdit(items, callId, success, summary, output)
    case MemoryOp(callId, op, name) => Appended(MemoryItem(key, f.task, f.ts, callId, op, name))
    case SkillActivated(skill) => Appended(SkillItem(key, f.task, f.ts, skill))
    case TodoUpdate(todos) => TodosEdit(items, nextKey, f, todos)
    case SubtaskStarted(id, agentName, goal) => SubtaskStartedEdit(items, nextKey, f, id, agentName, goal)
    case SubtaskFinished(id, outcome, summary) => SubtaskFinishedEdit(items, nextKey, f, id, outcome, summary)
    case QuestionAsked(id, reason, questions) =>
      Appended(QuestionItem(key, f.task, f.ts, id, reason, questions, false, false))
    case QuestionAnswered(id) => QuestionEndEdit(items, id, true)
    case QuestionWithdrawn(id) => QuestionEndEdit(items, id, false)
    case Compaction(n) => Appended(CompactionItem(key, f.task, f.ts, n))
    case TurnFinished(status, _) => Closed(status)
    case ErrorNotice(message) => Appended(ErrorItem(key, f.task, f.ts, message))
    case Rewind(target) => Truncated(target)
    case _ => Unchanged
  }

  /** A user message allocates its key even when it replaces an echo in place. */
  predicate AllocatesKey(e: Edit, f: Frame) {
    e.Appended? || f.event.UserMessage?
  }

  function ReleaseGate(s: State, questionId: string): Option<string> {
    if s.pendingQuestionId == Some(questionId) then None else s.pendingQuestionId
  }

  /** The flag half of the reducer: everything but the item list and the key counter. */
  function Flagged(s: State, event: Event): State {
    match event
    case AssistantText(_) => s.(delta := None)
    case ThinkingText(_) => s.(delta := None)
    case QuestionAsked(id, _, _) => s.(delta := None, pendingQuestionId := Some(id))
    case QuestionAnswered(id) => s.(pendingQuestionId := ReleaseGate(s, id))
    case QuestionWithdrawn(id) => s.(pendingQuestionId := ReleaseGate(s, id))
    case TurnStarted => s.(running := true, lastOutcome := None)
    case TurnFinished(status, detail) =>
      s.(running := false, delta := None, pendingQuestionId := None, lastOutcome := Some(Outcome(status, detail)))
    case ErrorNotice(_) => s.(running := false, delta := None)
    case Rewind(_) => s.(running := false, delta := None, pendingQuestionId := None, lastOutcome := None)
    case Delta(callId, kind, text, index) => s.(delta := ApplyDelta(s.delta, callId, kind, text, index))
    case LlmRetry(callId) => if callId == "" then s else s.(delta := ResetCall(s.delta, callId))
    case ReplayDone => s.(replayDone := true)
    case SessionMeta(title) => s.(title := Some(title))
    case _ => s
  }

  function FoldRecognised(s: State, f: Frame): State {
    var e := EditOf(s.items, s.nextKey, f);
    Flagged(s, f.event).(items := Edited(s.items, e),
                         nextKey := if AllocatesKey(e, f) then NextKeyAfter(s.nextKey, f) else s.nextKey)
  }

  /** A frame with a seq is new only if its stream's cursor has not reached it. */
  predicate IsFresh(s: State, f: Frame) {
    f.seqNo.Some? ==> f.seqNo.value > CursorAt(s.cursors, ScopeOf(f))
  }

  function Advance(s: State, f: Frame): State {
    if f.seqNo.None? then s
    else
      var cursors := s.cursors[ScopeOf(f) := f.seqNo.value];
      s.(cursors := cursors, lastSeq := LowestCursor(cursors))
  }

  function FoldEvent(s: State, f: Frame): State {
    if !IsFresh(s, f) then s else FoldRecognised(Advance(s, f), f)
  }

  function FoldEvents(s: State, frames: seq<Frame>): State {
    if frames == [] then s
    else FoldEvent(FoldEvents(s, frames[..|frames| - 1]), frames[|frames| - 1])
  }

  /** A send shows at once, as a pending message under a synthetic key. */
  function AppendOptimisticUser(s: State, content: string, images: seq<string>): State {
    s.(items := s.items + [UserItem(s.nextKey, None, None, content, images, true)], nextKey := s.nextKey - 1)
  }

  lemma {:induction false} FoldEventsConcat(s: State, a: seq<Frame>, b: seq<Frame>)
    ensures FoldEvents(s, a + b) == FoldEvents(FoldEvents(s, a), b)
  {
    if b == [] {
      assert a + b == a;
    } else {
      assert (a + b)[..|a + b| - 1] == a + b[..|b| - 1];
      FoldEventsConcat(s, a, b[..|b| - 1]);
    }
  }

  lemma FlagsKeepCursors(s: State, e: Event)
    ensures Flagged(s, e).cursors == s.cursors && Flagged(s, e).lastSeq == s.lastSeq
  {
  }

  /** Only a fresh durable frame moves a cursor: its own. */
  lemma FoldMovesOneCursor(s: State, f: Frame)
    ensures FoldEvent(s, f).cursors
         == if f.seqNo.Some? && IsFresh(s, f) then s.cursors[ScopeOf(f) := f.seqNo.value] else s.cursors
    ensures FoldEvent(s, f).lastSeq
         == if f.seqNo.Some? && IsFresh(s, f) then LowestCursor(s.cursors[ScopeOf(f) := f.seqNo.value]) else s.lastSeq
  {
    FlagsKeepCursors(Advance(s, f), f.event);
  }

  /** The resume value handed to the next connection is the greatest lower bound of the cursors. */
  lemma {:induction false} ResumeNeverSkips(frames: seq<Frame>)
    ensures var s := FoldEvents(INITIAL, frames);
            && s.lastSeq == LowestCursor(s.cursors)
            && forall scope :: scope in s.cursors ==> s.lastSeq <= s.cursors[scope]
  {
    if frames != [] {
      var front, f := frames[..|frames| - 1], frames[|frames| - 1];
      ResumeNeverSkips(front);
      FlagsKeepCursors(Advance(FoldEvents(INITIAL, front), f), f.event);
    }
  }

  // ---------------------------------------------------------------------------
  // Keys
  // ---------------------------------------------------------------------------

  /** A new item carries its frame's key and a rewritten one keeps its own: only the user's
      optimistic echo changes key, to that of the frame that acknowledges it. */
  lemma EditKeys(items: seq<Item>, nextKey: int, f: Frame)
    ensures var e := EditOf(items, nextKey, f);
            && (e.Appended? ==> e.item.key == KeyFor(nextKey, f))
            && (e.Replaced? ==>
                  && e.index < |items|
                  && e.item.key == if f.event.UserMessage? then KeyFor(nextKey, f) else items[e.index].key)
  {
  }

  /** Synthetic keys are negative, above the counter, and the counter only goes down. */
  ghost predicate KeysBelow(items: seq<Item>, nextKey: int) {
    nextKey < 0 && forall it :: it in items ==> it.key > nextKey
  }

  /** A synthetic key never collides: it is negative, so it is no seq, and it was never used before. */
  lemma FoldEventKeepsKeys(s: State, f: Frame)
    requires KeysBelow(s.items, s.nextKey)
    ensures KeysBelow(FoldEvent(s, f).items, FoldEvent(s, f).nextKey)
    ensures FoldEvent(s, f).nextKey <= s.nextKey
  {
    EditKeys(s.items, s.nextKey, f);
    EditKeepsKeys(s.items, s.nextKey, EditOf(s.items, s.nextKey, f), FoldEvent(s, f).nextKey);
  }

  lemma EditKeepsKeys(items: seq<Item>, before: int, e: Edit, after: int)
    requires KeysBelow(items, before) && after <= before
    requires e.Appended? || e.Replaced? ==> e.item.key > after
    ensures KeysBelow(Edited(items, e), after)
  {
    if e.Closed? {
      assert forall i :: 0 <= i < |items| ==> Edited(items, e)[i].key == items[i].key;
    }
  }
}
