/** What each event does to the conversation, said of the items themselves: which item is touched, what it
    becomes, and what else of the state moves (web/src/app/fold/conversation.ts, web/src/app/fold/delta-buffer.ts). */
module FoldLaws {
  import opened Collections
  import opened UIEvents
  import opened Conversation

  // ---------------------------------------------------------------------------
  // Which item
  // ---------------------------------------------------------------------------

  predicate RunningStep(it: Item, callId: string) {
    it.StepItem? && it.callId == callId && it.stepStatus == StepRunning
  }

  predicate RunningCard(it: Item, subtaskId: string) {
    it.SubtaskItem? && it.subtaskId == subtaskId && it.cardStatus == SubtaskRunning
  }

  predicate CardOfQuestion(it: Item, questionId: string) {
    it.QuestionItem? && it.questionId == questionId
  }

  /** A send that this message may acknowledge: aimed at no stream yet, or at this one. */
  predicate EchoOf(it: Item, content: string, task: Option<string>) {
    && it.UserItem? && it.pending && it.key < 0 && it.content == content
    && (it.taskId == None || it.taskId == task)
  }

  /** `at` is the last position that satisfies `p`, or -1 when there is none. */
  ghost predicate LastAt(items: seq<Item>, at: int, p: Item -> bool) {
    && -1 <= at < |items|
    && (at >= 0 ==> p(items[at]))
    && forall j :: at < j < |items| ==> !p(items[j])
  }

  lemma FindLastIs(items: seq<Item>, at: int, p: Item -> bool, q: Item -> bool)
    requires LastAt(items, at, p) && forall it :: p(it) <==> q(it)
    ensures FindLast(items, q) == at
  {
  }

  function KeyOfFrame(s: State, f: Frame): int {
    if f.seqNo.Some? then f.seqNo.value else s.nextKey
  }

  function KeyAfter(s: State, f: Frame): int {
    if f.seqNo.Some? then s.nextKey else s.nextKey - 1
  }

  /** The state with the frame's cursor noted, if it has one. */
  function Noted(s: State, f: Frame): State {
    match f.seqNo
    case None => s
    case Some(n) =>
      var cursors := s.cursors[if f.task.Some? then f.task.value else "" := n as int];
      s.(cursors := cursors, lastSeq := LowestCursor(cursors))
  }

  lemma FoldIs(s: State, f: Frame)
    requires IsFresh(s, f)
    ensures var e := EditOf(s.items, s.nextKey, f);
            FoldEvent(s, f)
            == Flagged(Noted(s, f), f.event).(items := Edited(s.items, e),
                                              nextKey := if AllocatesKey(e, f) then KeyAfter(s, f) else s.nextKey)
  {
    hide EditOf;
    hide Edited;
    hide LowestCursor;
    hide AllocatesKey;
  }

  // ---------------------------------------------------------------------------
  // Events that add an item
  // ---------------------------------------------------------------------------

  /** Texts, cards and notices are appended under the frame's key, stream and clock, word for word. Text
      and reasoning end the preview, a question ends it and holds the gate, an error ends it and the turn. */
  lemma AppendsWhatItSays(s: State, f: Frame)
    requires IsFresh(s, f)
    ensures var base, key := Noted(s, f), KeyOfFrame(s, f);
            var grown := base.(nextKey := KeyAfter(s, f));
            match f.event
            case AssistantText(text) =>
              FoldEvent(s, f) == grown.(items := s.items + [AssistantItem(key, f.task, f.ts, text)], delta := None)
            case ThinkingText(text) =>
              FoldEvent(s, f) == grown.(items := s.items + [ThinkingItem(key, f.task, f.ts, text)], delta := None)
            case RecallText(text) =>
              FoldEvent(s, f) == grown.(items := s.items + [RecallItem(key, f.task, f.ts, text)])
            case MemoryOp(callId, op, name) =>
              FoldEvent(s, f) == grown.(items := s.items + [MemoryItem(key, f.task, f.ts, callId, op, name)])
            case SkillActivated(skill) =>
              FoldEvent(s, f) == grown.(items := s.items + [SkillItem(key, f.task, f.ts, skill)])
            case Compaction(n) =>
              FoldEvent(s, f) == grown.(items := s.items + [CompactionItem(key, f.task, f.ts, n)])
            case ErrorNotice(message) =>
              FoldEvent(s, f) == grown.(items := s.items + [ErrorItem(key, f.task, f.ts, message)],
                                        running := false, delta := None)
            case QuestionAsked(id, reason, questions) =>
              FoldEvent(s, f)
              == grown.(items := s.items + [QuestionItem(key, f.task, f.ts, id, reason, questions, false, false)],
                        delta := None, pendingQuestionId := Some(id))
            case _ => true
  {
    FoldIs(s, f);
    hide FoldEvent;
    hide Noted;
    hide Truncate;
  }

  /** A message takes the place of the last send it acknowledges, or is appended. */
  lemma MessageTakesItsEcho(s: State, f: Frame, at: int)
    requires IsFresh(s, f) && f.event.UserMessage?
    requires LastAt(s.items, at, (it: Item) => EchoOf(it, f.event.content, f.task))
    ensures var item := UserItem(KeyOfFrame(s, f), f.task, f.ts, f.event.content, f.event.images, false);
            FoldEvent(s, f)
            == Noted(s, f).(nextKey := KeyAfter(s, f),
                            items := if at < 0 then s.items + [item] else s.items[at := item])
  {
    FoldIs(s, f);
    hide FoldEvent;
    hide Noted;
    hide Truncate;
    FindLastIs(s.items, at, (it: Item) => EchoOf(it, f.event.content, f.task), IsEcho(f.event.content, f.task));
    hide FindLast;
  }

  /** A send shows at once and once: the message that acknowledges it, on whichever stream it lands, takes its
      place, and nothing else is left of it. */
  lemma SendShowsOnce(s: State, content: string, images: seq<string>, f: Frame)
    requires s.nextKey < 0 && f.event.UserMessage? && f.event.content == content && IsFresh(s, f)
    ensures var sent := AppendOptimisticUser(s, content, images);
            && sent == s.(items := s.items + [UserItem(s.nextKey, None, None, content, images, true)],
                          nextKey := s.nextKey - 1)
            && FoldEvent(sent, f).items
               == s.items + [UserItem(KeyOfFrame(sent, f), f.task, f.ts, content, f.event.images, false)]
  {
    var sent := AppendOptimisticUser(s, content, images);
    MessageTakesItsEcho(sent, f, |s.items|);
    hide FoldEvent;
  }

  /** A call opens a running step, once per call id. */
  lemma CallOpensOneStep(s: State, f: Frame)
    requires IsFresh(s, f) && f.event.ToolCall?
    ensures FoldEvent(s, f)
         == if exists i :: 0 <= i < |s.items| && s.items[i].StepItem? && s.items[i].callId == f.event.callId
            then Noted(s, f)
            else Noted(s, f).(nextKey := KeyAfter(s, f),
                              items := s.items + [StepItem(KeyOfFrame(s, f), f.task, f.ts, f.event.callId,
                                                           f.event.toolName, f.event.args, StepRunning, None, None,
                                                           f.event.ofSubtask)])
  {
    FoldIs(s, f);
    hide FoldEvent;
    hide Noted;
    hide Truncate;
    var at := FindLast(s.items, IsStepOf(f.event.callId));
    hide FindLast;
  }

  /** A subtask's start opens one running card. */
  lemma StartOpensOneCard(s: State, f: Frame)
    requires IsFresh(s, f) && f.event.SubtaskStarted?
    ensures FoldEvent(s, f)
         == if exists i :: 0 <= i < |s.items| && s.items[i].SubtaskItem? && s.items[i].subtaskId == f.event.subtaskId
            then Noted(s, f)
            else Noted(s, f).(nextKey := KeyAfter(s, f),
                              items := s.items + [SubtaskItem(KeyOfFrame(s, f), f.task, f.ts, f.event.subtaskId,
                                                              f.event.agentName, f.event.goal, SubtaskRunning, None)])
  {
    FoldIs(s, f);
    hide FoldEvent;
    hide Noted;
    hide Truncate;
    var at := FindLast(s.items, IsCardOf(f.event.subtaskId));
    hide FindLast;
  }

  // ---------------------------------------------------------------------------
  // Events that rewrite an item
  // ---------------------------------------------------------------------------

  /** A result closes the last running step of its call, succeeded exactly when it says so, with its summary
      and output; without such a step it changes nothing. Every other item stays. */
  lemma ResultClosesItsStep(s: State, f: Frame, at: int)
    requires IsFresh(s, f) && f.event.ToolResult?
    requires LastAt(s.items, at, (it: Item) => RunningStep(it, f.event.callId))
    ensures var after := FoldEvent(s, f);
            && after == Noted(s, f).(items := after.items)
            && (at < 0 ==> after.items == s.items)
            && (at >= 0 ==>
                  && |after.items| == |s.items|
                  && (forall j :: 0 <= j < |s.items| && j != at ==> after.items[j] == s.items[j])
                  && after.items[at].StepItem?
                  && (after.items[at].stepStatus == StepSucceeded <==> f.event.success)
                  && (after.items[at].stepStatus == StepFailed <==> !f.event.success)
                  && after.items[at].stepSummary == Some(f.event.summary)
                  && after.items[at].output == Some(f.event.output)
                  && after.items[at].(stepStatus := StepRunning, stepSummary := None, output := None)
                     == s.items[at].(stepStatus := StepRunning, stepSummary := None, output := None))
  {
    FindLastIs(s.items, at, (it: Item) => RunningStep(it, f.event.callId), IsRunningStepOf(f.event.callId));
    hide FindLast;
    var e := EditOf(s.items, s.nextKey, f);
    assert e == ToolResultEdit(s.items, f.event.callId, f.event.success, f.event.summary, f.event.output);
    hide EditOf;
    assert FoldEvent(s, f) == Noted(s, f).(items := Edited(s.items, e)) by {
      hide Edited;
      hide Noted;
      hide ToolResultEdit;
      FoldIs(s, f);
    }
    hide FoldEvent;
    hide Noted;
    hide Truncate;
  }

  /** A subtask's end closes its last running card with the outcome and summary it carries; without one it
      leaves a closed card of its own. */
  lemma EndClosesItsCard(s: State, f: Frame, at: int)
    requires IsFresh(s, f) && f.event.SubtaskFinished?
    requires LastAt(s.items, at, (it: Item) => RunningCard(it, f.event.subtaskId))
    ensures var outcome, summary := SubtaskEnded(f.event.outcome), Some(f.event.summary);
            FoldEvent(s, f)
            == if at >= 0 then
                 Noted(s, f).(items := s.items[at := s.items[at].(cardStatus := outcome, cardSummary := summary)])
               else
                 Noted(s, f).(nextKey := KeyAfter(s, f),
                              items := s.items + [SubtaskItem(KeyOfFrame(s, f), f.task, f.ts, f.event.subtaskId,
                                                              "", "", outcome, summary)])
  {
    FoldIs(s, f);
    hide FoldEvent;
    hide Noted;
    hide Truncate;
    FindLastIs(s.items, at, (it: Item) => RunningCard(it, f.event.subtaskId), IsRunningCardOf(f.event.subtaskId));
    hide FindLast;
  }

  /** A checklist of this turn is rewritten in place; a turn without one gets a new card. */
  lemma TodosRewriteTheTurns(s: State, f: Frame, at: int, message: int)
    requires IsFresh(s, f) && f.event.TodoUpdate?
    requires LastAt(s.items, at, (it: Item) => it.TodosItem?) && LastAt(s.items, message, (it: Item) => it.UserItem?)
    ensures FoldEvent(s, f)
         == if at > message then Noted(s, f).(items := s.items[at := s.items[at].(todos := f.event.todos)])
            else
              Noted(s, f).(nextKey := KeyAfter(s, f),
                           items := s.items + [TodosItem(KeyOfFrame(s, f), f.task, f.ts, f.event.todos)])
  {
    FoldIs(s, f);
    hide FoldEvent;
    hide Noted;
    hide Truncate;
    FindLastIs(s.items, at, (it: Item) => it.TodosItem?, IsTodos());
    FindLastIs(s.items, message, (it: Item) => it.UserItem?, IsUser());
    hide FindLast;
  }

  /** An answer marks the last card of its question answered and a withdrawal marks it withdrawn; both open
      the gate if it is held by that question, and no other. */
  lemma AnswerOpensTheGate(s: State, f: Frame, at: int)
    requires IsFresh(s, f) && (f.event.QuestionAnswered? || f.event.QuestionWithdrawn?)
    requires LastAt(s.items, at, (it: Item) => CardOfQuestion(it, f.event.questionId))
    ensures var after := FoldEvent(s, f);
            && after == Noted(s, f).(items := after.items, pendingQuestionId := after.pendingQuestionId)
            && after.pendingQuestionId
               == (if s.pendingQuestionId == Some(f.event.questionId) then None else s.pendingQuestionId)
            && after.items
               == if at < 0 then s.items
                  else if f.event.QuestionAnswered? then s.items[at := s.items[at].(answered := true)]
                  else s.items[at := s.items[at].(withdrawn := true)]
  {
    FoldIs(s, f);
    hide FoldEvent;
    hide Noted;
    hide Truncate;
    FindLastIs(s.items, at, (it: Item) => CardOfQuestion(it, f.event.questionId), IsQuestionOf(f.event.questionId));
    hide FindLast;
  }

  /** What the end of a turn makes of one item. */
  ghost predicate ClosedBy(status: TurnStatus, before: Item, after: Item) {
    if before.StepItem? && before.stepStatus == StepRunning then
      after == before.(stepStatus := match status
                                     case TurnCancelled => StepCancelled
                                     case TurnFailedForGood => StepFailed
                                     case _ => StepRunning)
    else if before.SubtaskItem? && before.cardStatus == SubtaskRunning then
      after == before.(cardStatus := if status == TurnCancelled then SubtaskEnded("cancelled") else SubtaskRunning)
    else if before.QuestionItem? && !before.answered then after == before.(withdrawn := true)
    else after == before
  }

  /** The end of a turn: running steps are cancelled or failed with it, running cards cancelled, open
      questions withdrawn, and the client is at rest with the turn's status and reason. */
  lemma EndOfTurnCloses(s: State, f: Frame)
    requires IsFresh(s, f) && f.event.TurnFinished?
    ensures var after := FoldEvent(s, f);
            && after == Noted(s, f).(items := after.items, running := false, delta := None, pendingQuestionId := None,
                                     lastOutcome := Some(Outcome(f.event.status, f.event.detail)))
            && |after.items| == |s.items|
            && forall i :: 0 <= i < |s.items| ==> ClosedBy(f.event.status, s.items[i], after.items[i])
  {
    FoldIs(s, f);
    hide FoldEvent;
    hide Noted;
    hide Truncate;
    hide FindLast;
  }

  /** What a rewind to `target` lets stand among `items`: no seq past the target, no unacknowledged send, and of
      the steps without a seq only those of the session itself or of a subtask whose card stands. */
  ghost predicate Outlasts(items: seq<Item>, target: int, it: Item) {
    && (it.key <= target || it.key < 0)
    && !(it.UserItem? && it.pending)
    && (it.StepItem? && it.key < 0 && it.ofSubtask.Some?
        ==> exists card :: card in items && card.SubtaskItem? && card.subtaskId == it.ofSubtask.value
                           && (card.key <= target || card.key < 0))
  }

  lemma TruncateLeaves(items: seq<Item>, target: int, p: Item -> bool)
    requires forall it :: it in items ==> (p(it) <==> Outlasts(items, target, it))
    ensures Truncate(items, target) == Filter(p, items)
  {
    var survivors := Filter(AtOrBefore(target), items);
    var stands := (it: Item) => AtOrBefore(target)(it) && Anchored(CardIds(survivors))(it);
    FilterFilter(AtOrBefore(target), Anchored(CardIds(survivors)), stands, items);
    FilterFilter(stands, Acknowledged(), p, items);
  }

  /** A rewind leaves, in their order, exactly the items that outlast it. */
  lemma RewindLeaves(s: State, f: Frame, p: Item -> bool)
    requires IsFresh(s, f) && f.event.Rewind?
    requires forall it :: it in s.items ==> (p(it) <==> Outlasts(s.items, f.event.targetSeq, it))
    ensures FoldEvent(s, f).items == Filter(p, s.items)
  {
    var e := EditOf(s.items, s.nextKey, f);
    assert e == Truncated(f.event.targetSeq);
    hide EditOf;
    assert FoldEvent(s, f).items == Edited(s.items, e) by {
      hide Edited;
      hide Noted;
      FoldIs(s, f);
    }
    hide FoldEvent;
    TruncateLeaves(s.items, f.event.targetSeq, p);
  }

  // ---------------------------------------------------------------------------
  // Events that touch no item
  // ---------------------------------------------------------------------------

  lemma FlagsOnly(s: State, f: Frame)
    requires IsFresh(s, f)
    ensures var base := Noted(s, f);
            match f.event
            case TurnStarted => FoldEvent(s, f) == base.(running := true, lastOutcome := None)
            case ReplayDone => FoldEvent(s, f) == base.(replayDone := true)
            case SessionMeta(title) => FoldEvent(s, f) == base.(title := Some(title))
            case Unrecognised(_) => FoldEvent(s, f) == base
            case Rewind(_) =>
              FoldEvent(s, f) == base.(items := FoldEvent(s, f).items, running := false, delta := None,
                                       pendingQuestionId := None, lastOutcome := None)
            case LlmRetry(callId) =>
              FoldEvent(s, f)
              == if callId != "" && s.delta.Some? && s.delta.value.callId == callId then base.(delta := None) else base
            case _ => true
  {
    FoldIs(s, f);
    hide FoldEvent;
    hide Noted;
    hide Truncate;
    hide FindLast;
  }

  // ---------------------------------------------------------------------------
  // The preview
  // ---------------------------------------------------------------------------

  /** The texts that the deltas of one call put at one block, joined, since the block last changed kind. */
  function Streamed(frames: seq<Frame>, callId: string, index: int): Option<DeltaBlock> {
    if frames == [] then None
    else
      var before, e := Streamed(frames[..|frames| - 1], callId, index), frames[|frames| - 1].event;
      if !e.Delta? || e.callId != callId || e.index != index then before
      else if before.Some? && before.value.kind == e.kind then Some(DeltaBlock(e.kind, before.value.text + e.text))
      else Some(DeltaBlock(e.kind, e.text))
  }

  predicate DeltasOf(frames: seq<Frame>, callId: string) {
    forall f :: f in frames ==> f.event.Delta? && f.event.callId == callId && f.seqNo.None?
  }

  /** The buffer is the call's own, and each block holds the joined texts of that block. */
  ghost predicate Previews(delta: Option<DeltaState>, frames: seq<Frame>, callId: string) {
    && delta.Some? && delta.value.callId == callId
    && forall index :: Streamed(frames, callId, index)
                    == if index in delta.value.blocks then Some(delta.value.blocks[index]) else None
  }

  lemma PreviewStarts(delta: Option<DeltaState>, f: Frame, callId: string)
    requires DeltasOf([f], callId) && callId != "" && (delta.Some? ==> delta.value.callId != callId)
    ensures Previews(ApplyDelta(delta, f.event.callId, f.event.kind, f.event.text, f.event.index), [f], callId)
  {
    assert f in [f];
    assert [f][..0] == [];
  }

  lemma PreviewGrows(delta: Option<DeltaState>, front: seq<Frame>, f: Frame, callId: string)
    requires DeltasOf([f], callId) && callId != "" && Previews(delta, front, callId)
    ensures Previews(ApplyDelta(delta, f.event.callId, f.event.kind, f.event.text, f.event.index), front + [f], callId)
  {
    assert f in [f];
    assert (front + [f])[..|front|] == front;
  }

  /** A call streams into its own buffer: whatever was previewed before, after its deltas each block holds
      the joined texts of that block and there is no other. */
  lemma {:induction false} PreviewJoinsDeltas(s: State, frames: seq<Frame>, callId: string)
    requires DeltasOf(frames, callId) && callId != "" && frames != []
    requires s.delta.Some? ==> s.delta.value.callId != callId
    ensures Previews(FoldEvents(s, frames).delta, frames, callId)
    ensures FoldEvents(s, frames) == s.(delta := FoldEvents(s, frames).delta)
  {
    hide FoldEvent;
    hide Previews;
    hide ApplyDelta;
    var front, last := frames[..|frames| - 1], frames[|frames| - 1];
    assert frames == front + [last] && last in frames;
    DeltaMoves(FoldEvents(s, front), last);
    if front == [] {
      assert frames == [last];
      PreviewStarts(s.delta, last, callId);
    } else {
      PreviewJoinsDeltas(s, front, callId);
      PreviewGrows(FoldEvents(s, front).delta, front, last, callId);
    }
  }

  lemma DeltaMoves(s: State, f: Frame)
    requires f.event.Delta? && f.seqNo.None?
    ensures FoldEvent(s, f)
         == s.(delta := ApplyDelta(s.delta, f.event.callId, f.event.kind, f.event.text, f.event.index))
  {
  }
}
