/** The server's derived status and the client's folded state agree on when a session is at rest. */
module Agreement {
  import opened Collections
  import opened UIEvents
  import opened Translator
  import opened Status
  import opened Conversation

  datatype Server = Server(closed: seq<string>, status: SessionStatus)

  function Observe(server: Server, memory: nat, env: Envelope): Server {
    Server(Close(server.closed, memory, env),
           if Reported(server.closed, env).Some? then Reported(server.closed, env).value else server.status)
  }

  function ServerAfter(memory: nat, log: seq<Envelope>): Server {
    if log == [] then Server([], Idle) else Observe(ServerAfter(memory, log[..|log| - 1]), memory, log[|log| - 1])
  }

  function ClientAfter(log: seq<Envelope>): State {
    FoldEvents(INITIAL, FirstFrames(log))
  }

  predicate AgreeAfter(memory: nat, log: seq<Envelope>) {
    ServerAfter(memory, log).status == Idle <==> !ClientAfter(log).running
  }

  /** Questions and barriers only inside a turn, rewinds only at rest, no start after a terminal. */
  predicate Orderly(server: Server, env: Envelope) {
    var closed, idle := env.taskId in server.closed, server.status == Idle;
    match env.payload
    case UserQuestionRequested(_, _, _) => closed || !idle
    case TaskSuspended(wakeOn, _, _) => IsSubtaskBarrier(wakeOn) || IsQuestionWake(wakeOn) ==> closed || !idle
    case TaskStarted => !closed
    case TaskWoken => !closed
    case TaskRewound(_) => idle
    case _ => true
  }

  // ---------------------------------------------------------------------------

  predicate Quiet(e: Event) {
    !e.TurnStarted? && !e.TurnFinished? && !e.ErrorNotice? && !e.Rewind?
  }

  lemma {:induction false} BlocksAreQuiet(blocks: seq<Block>)
    ensures forall e :: e in FromBlocks(blocks) ==> Quiet(e)
  {
    if blocks != [] {
      BlocksAreQuiet(blocks[..|blocks| - 1]);
    }
  }

  lemma {:induction false} BodiesAreQuiet(messages: seq<Message>)
    ensures forall e :: e in FromMessages(messages) ==> Quiet(e)
  {
    if messages != [] {
      BodiesAreQuiet(messages[..|messages| - 1]);
      var last := messages[|messages| - 1];
      if last.FromAssistant? {
        BlocksAreQuiet(last.blocks);
      }
    }
  }

  function RunningAfter(running: bool, p: Payload): bool {
    match p
    case TaskStarted => true
    case TaskWoken => true
    case TaskSuspended(wakeOn, _, _) => running && (IsSubtaskBarrier(wakeOn) || IsQuestionWake(wakeOn))
    case TaskCancelled => false
    case TaskFailed(_) => false
    case TaskCompleted => false
    case TaskRewound(_) => false
    case _ => running
  }

  lemma FoldRunning(s: State, f: Frame)
    requires IsFresh(s, f)
    ensures Quiet(f.event) ==> FoldEvent(s, f).running == s.running
    ensures !Quiet(f.event) ==> FoldEvent(s, f).running == f.event.TurnStarted?
  {
  }

  lemma FirstEventRunning(running: bool, p: Payload)
    ensures var events := RootEvents(p);
            RunningAfter(running, p)
              == if events == [] || Quiet(events[0]) then running else events[0].TurnStarted?
  {
    if p.MessagesAppended? {
      BodiesAreQuiet(p.messages);
    }
  }

  lemma FoldOne(s: State, f: Frame)
    ensures FoldEvents(s, [f]) == FoldEvent(s, f)
  {
    assert [f][..0] == [];
  }

  lemma FirstFrameRunning(s: State, env: Envelope)
    requires forall f :: f in FirstFrame(env) ==> IsFresh(s, f)
    ensures FoldEvents(s, FirstFrame(env)).running == RunningAfter(s.running, env.payload)
  {
    FirstEventRunning(s.running, env.payload);
    var events := RootEvents(env.payload);
    if events != [] {
      var f := FirstFrame(env)[0];
      assert f.event == events[0] && f in FirstFrame(env) && FirstFrame(env) == [f];
      FoldRunning(s, f);
      FoldOne(s, f);
    }
  }

  /** Of the frames that share an envelope's seq only the first is ever applied, whatever the state. */
  lemma {:induction false} LaterFramesAreDropped(s: State, env: Envelope, k: nat)
    requires 0 < k <= |Translate(env)|
    ensures FoldEvents(s, Translate(env)[..k]) == FoldEvents(s, FirstFrame(env))
  {
    var frames := Translate(env);
    if k == 1 {
      assert frames[..1] == FirstFrame(env);
    } else {
      LaterFramesAreDropped(s, env, k - 1);
      assert frames[..k][..k - 1] == frames[..k - 1];
      FirstFrameMoves(s, env);
      hide FoldEvent;
      var after := FoldEvents(s, FirstFrame(env));
      StaleFrame(after, frames[k - 1]);
    }
  }

  lemma StaleFrame(s: State, f: Frame)
    requires !IsFresh(s, f)
    ensures FoldEvent(s, f) == s
  {
  }

  lemma FirstFrameMoves(s: State, env: Envelope)
    ensures var after := FoldEvents(s, FirstFrame(env)).cursors;
            after
            == if Translate(env) == [] || env.seqNo <= CursorAt(s.cursors, env.taskId) then s.cursors
               else s.cursors[env.taskId := env.seqNo]
  {
    if Translate(env) != [] {
      var f := FirstFrame(env)[0];
      assert FirstFrame(env) == [f];
      FoldOne(s, f);
      FoldMovesOneCursor(s, f);
      hide FoldEvent;
    }
  }

  /** So the client sees of any log what its first frames say. */
  lemma {:induction false} ClientSeesFirstFrames(s: State, log: seq<Envelope>)
    ensures FoldEvents(s, AllFrames(log)) == FoldEvents(s, FirstFrames(log))
  {
    if log != [] {
      var front, env := log[..|log| - 1], log[|log| - 1];
      ClientSeesFirstFrames(s, front);
      FoldEventsConcat(s, AllFrames(front), Translate(env));
      FoldEventsConcat(s, FirstFrames(front), FirstFrame(env));
      if Translate(env) != [] {
        var n := |Translate(env)|;
        LaterFramesAreDropped(FoldEvents(s, FirstFrames(front)), env, n);
        assert Translate(env)[..n] == Translate(env);
      }
    }
  }

  // ---------------------------------------------------------------------------
  // What the client is shown of a log
  // ---------------------------------------------------------------------------

  /** The frames of a list that the client applies: those no cursor of its own rejects. */
  function Applied(s: State, frames: seq<Frame>): seq<Frame> {
    if frames == [] then []
    else
      var front, last := frames[..|frames| - 1], frames[|frames| - 1];
      Applied(s, front) + if IsFresh(FoldEvents(s, front), last) then [last] else []
  }

  lemma {:induction false} AppliedConcat(s: State, a: seq<Frame>, b: seq<Frame>)
    ensures Applied(s, a + b) == Applied(s, a) + Applied(FoldEvents(s, a), b)
  {
    hide FoldEvents;
    hide IsFresh;
    if b == [] {
      assert a + b == a;
    } else {
      assert (a + b)[..|a + b| - 1] == a + b[..|b| - 1];
      AppliedConcat(s, a, b[..|b| - 1]);
      FoldEventsConcat(s, a, b[..|b| - 1]);
    }
  }

  lemma {:induction false} AppliedOfOne(s: State, env: Envelope, k: nat)
    requires 0 < k <= |Translate(env)| && env.seqNo > CursorAt(s.cursors, env.taskId)
    ensures Applied(s, Translate(env)[..k]) == FirstFrame(env)
  {
    hide FoldEvents;
    hide Translate;
    var frames := Translate(env);
    var front := frames[..k][..k - 1];
    assert front == frames[..k - 1] && frames[..k][k - 1] == frames[k - 1];
    StampedFrames(env);
    assert frames[k - 1] in frames;
    if k == 1 {
      NothingFolds(s);
    } else {
      AppliedOfOne(s, env, k - 1);
      LaterFramesAreDropped(s, env, k - 1);
      FirstFrameMoves(s, env);
    }
  }

  lemma NothingFolds(s: State)
    ensures FoldEvents(s, []) == s
  {
  }

  /** Where a client stands that has folded a stream past its cursor. */
  lemma {:induction false} CursorWithin(s: State, task: string, log: seq<Envelope>)
    requires IsStream(task, log) && log != [] && CursorAt(s.cursors, task) < log[0].seqNo
    ensures CursorAt(FoldEvents(s, AllFrames(log)).cursors, task) <= log[|log| - 1].seqNo
  {
    hide FoldEvents;
    hide Translate;
    hide FirstFrame;
    var front, env := log[..|log| - 1], log[|log| - 1];
    var mid := FoldEvents(s, AllFrames(front));
    if front == [] {
      NothingFolds(s);
    } else {
      CursorWithin(s, task, front);
    }
    FoldEventsConcat(s, AllFrames(front), Translate(env));
    OneEnvelopeFolds(mid, env);
    FirstFrameMoves(mid, env);
  }

  lemma OneEnvelopeFolds(s: State, env: Envelope)
    ensures FoldEvents(s, Translate(env)) == FoldEvents(s, FirstFrame(env))
  {
    if Translate(env) != [] {
      LaterFramesAreDropped(s, env, |Translate(env)|);
      assert Translate(env)[..|Translate(env)|] == Translate(env);
    }
    hide FoldEvents;
  }

  /** A client that has seen nothing of a stream applies exactly its first frames. */
  lemma {:induction false} AppliesFirstFrames(s: State, task: string, log: seq<Envelope>)
    requires IsStream(task, log) && (log != [] ==> CursorAt(s.cursors, task) < log[0].seqNo)
    ensures Applied(s, AllFrames(log)) == FirstFrames(log)
  {
    hide FoldEvents;
    hide Translate;
    if log != [] {
      var front, env := log[..|log| - 1], log[|log| - 1];
      AppliesFirstFrames(s, task, front);
      var mid := FoldEvents(s, AllFrames(front));
      if front == [] { NothingFolds(s); } else { CursorWithin(s, task, front); }
      AppliedConcat(s, AllFrames(front), Translate(env));
      if Translate(env) != [] {
        AppliedOfOne(mid, env, |Translate(env)|);
        assert Translate(env)[..|Translate(env)|] == Translate(env);
      }
      hide Applied;
    }
  }

  lemma {:induction false} FirstFramesAreAll(log: seq<Envelope>)
    ensures |FirstFrames(log)| <= |AllFrames(log)|
    ensures FirstFrames(log) == AllFrames(log) <==> forall env :: env in log ==> |Translate(env)| <= 1
  {
    hide Translate;
    if log != [] {
      var front, env := log[..|log| - 1], log[|log| - 1];
      FirstFramesAreAll(front);
      assert log == front + [env];
      assert |Translate(env)| <= 1 ==> FirstFrame(env) == Translate(env);
      if FirstFrames(log) == AllFrames(log) {
        assert |FirstFrames(front)| + |FirstFrame(env)| == |AllFrames(front)| + |Translate(env)|;
        assert FirstFrames(front) == FirstFrames(log)[..|FirstFrames(front)|];
      }
    }
  }

  /** The client is shown every event of a log exactly when no envelope yields more than one. */
  lemma ShowsEverything(s: State, task: string, log: seq<Envelope>)
    requires IsStream(task, log) && (log != [] ==> CursorAt(s.cursors, task) < log[0].seqNo)
    ensures Applied(s, AllFrames(log)) == AllFrames(log) <==> forall env :: env in log ==> |Translate(env)| <= 1
  {
    AppliesFirstFrames(s, task, log);
    FirstFramesAreAll(log);
  }

  /** The witness: of an assistant message with two texts the client shows the first. */
  lemma SecondTextIsLost(env: Envelope, a: string, b: string)
    requires a != "" && b != "" && env.payload == MessagesAppended([FromAssistant([TextBlock(a)] + [TextBlock(b)])])
    ensures AllFrames([env])
         == [Frame(Some(env.seqNo), Some(env.taskId), env.occurredAt, AssistantText(a)),
             Frame(Some(env.seqNo), Some(env.taskId), env.occurredAt, AssistantText(b))]
    ensures FoldEvents(INITIAL, AllFrames([env])).items
         == [AssistantItem(env.seqNo, Some(env.taskId), env.occurredAt, a)]
  {
    var blocks := [TextBlock(a)] + [TextBlock(b)];
    assert blocks[..1] == [TextBlock(a)] && [TextBlock(a)][..0] == [];
    assert FromBlocks([TextBlock(a)]) == [AssistantText(a)];
    assert FromBlocks(blocks) == [AssistantText(a)] + [AssistantText(b)];
    var m := FromAssistant(blocks);
    assert [m][..0] == [] && FromMessages([m]) == [] + FromBlocks(blocks);
    assert [env][..0] == [] && AllFrames([env]) == [] + Translate(env);
    var first := Frame(Some(env.seqNo), Some(env.taskId), env.occurredAt, AssistantText(a));
    assert FirstFrame(env) == [first];
    OneEnvelopeFolds(INITIAL, env);
    FoldOne(INITIAL, first);
    hide FoldEvents;
    assert INITIAL.items + [AssistantItem(env.seqNo, Some(env.taskId), env.occurredAt, a)]
        == [AssistantItem(env.seqNo, Some(env.taskId), env.occurredAt, a)];
  }

  // ---------------------------------------------------------------------------

  /** What the end of a failed turn would close. */
  predicate LeftOpen(it: Item) {
    (it.StepItem? && it.stepStatus == StepRunning) || (it.QuestionItem? && !it.answered && !it.withdrawn)
  }

  /** What that costs a failed task: the client shows the error and stops, but the turn end under the
      same seq is dropped. The outcome and the pending question stay as they were, and the items are those
      the turn end would have left exactly when no step is running and no question is open. */
  lemma FailedTaskDropsItsEnd(s: State, env: Envelope)
    requires env.payload.TaskFailed? && env.seqNo > CursorAt(s.cursors, env.taskId)
    ensures var after := FoldEvents(s, Translate(env));
            && after.items == s.items + [ErrorItem(env.seqNo, Some(env.taskId), env.occurredAt, env.payload.failure)]
            && !after.running && after.lastOutcome == s.lastOutcome && after.pendingQuestionId == s.pendingQuestionId
            && |Translate(env)| == 2 && Translate(env)[1].event.TurnFinished?
            && (after.items == FoldRecognised(after, Translate(env)[1]).items
                <==> forall it :: it in s.items ==> !LeftOpen(it))
  {
    var frames := Translate(env);
    FailureShowsItsErrorFirst(env);
    LaterFramesAreDropped(s, env, 2);
    assert frames[..2] == frames;
    assert FirstFrame(env) == [frames[0]];
    FoldOne(s, frames[0]);
    StampedFrames(env);
    hide Translate;
    hide FirstFrame;
    FoldsError(s, frames[0]);
    FoldsEnd(FoldEvent(s, frames[0]), frames[1]);
    hide FoldEvent;
    hide FoldRecognised;
    NoticeIsClosed(s.items, ErrorItem(env.seqNo, Some(env.taskId), env.occurredAt, env.payload.failure));
    hide MapItems;
  }

  lemma StampedFrames(env: Envelope)
    ensures forall f :: f in Translate(env) ==>
              f.seqNo == Some(env.seqNo) && f.task == Some(env.taskId) && f.ts == env.occurredAt
  {
    hide RootEvents;
  }

  lemma FoldsError(s: State, f: Frame)
    requires f.event.ErrorNotice? && IsDurable(f) && IsFresh(s, f)
    ensures var after := FoldEvent(s, f);
            && after.items == s.items + [ErrorItem(f.seqNo.value, f.task, f.ts, f.event.message)]
            && !after.running && after.lastOutcome == s.lastOutcome && after.pendingQuestionId == s.pendingQuestionId
  {
  }

  lemma FoldsEnd(s: State, f: Frame)
    requires f.event.TurnFinished?
    ensures FoldRecognised(s, f).items == MapItems(s.items, ForceClose(f.event.status))
  {
  }

  lemma NoticeIsClosed(items: seq<Item>, notice: Item)
    requires notice.ErrorItem?
    ensures MapItems(items + [notice], ForceClose(TurnFailedForGood)) == items + [notice]
       <==> forall it :: it in items ==> !LeftOpen(it)
  {
    EndChanges(items + [notice]);
    hide MapItems;
    assert forall it :: it in items + [notice] <==> it in items || it == notice;
  }

  lemma EndChanges(items: seq<Item>)
    ensures MapItems(items, ForceClose(TurnFailedForGood)) == items <==> forall it :: it in items ==> !LeftOpen(it)
  {
    var closed := MapItems(items, ForceClose(TurnFailedForGood));
    assert forall i :: 0 <= i < |items| ==> (closed[i] == items[i] <==> !LeftOpen(items[i]));
  }

  /** The client's cursor is the seq of the last envelope that produced a frame. */
  lemma {:induction false} CursorTracksLog(task: string, log: seq<Envelope>)
    requires IsStream(task, log)
    ensures var cursors := ClientAfter(log).cursors;
            && (forall scope :: scope in cursors ==> scope == task)
            && (log == [] ==> CursorAt(cursors, task) == -1)
            && (log != [] ==> CursorAt(cursors, task) <= log[|log| - 1].seqNo)
  {
    hide FoldEvent;
    hide FirstFrame;
    hide Translate;
    if log != [] {
      var front, env := log[..|log| - 1], log[|log| - 1];
      CursorTracksLog(task, front);
      FoldEventsConcat(INITIAL, FirstFrames(front), FirstFrame(env));
      FirstFrameMoves(ClientAfter(front), env);
      hide FoldEvents;
    }
  }

  lemma {:induction false} OnlyThisTaskCloses(task: string, memory: nat, log: seq<Envelope>)
    requires IsStream(task, log) && memory >= 1
    ensures var closed := ServerAfter(memory, log).closed;
            (closed == [] || closed == [task]) && (closed == [task] ==> ServerAfter(memory, log).status == Idle)
  {
    if log != [] {
      OnlyThisTaskCloses(task, memory, log[..|log| - 1]);
    }
  }

  /** The first frame of the next envelope of a stream is never a duplicate. */
  lemma NextIsFresh(task: string, log: seq<Envelope>, env: Envelope)
    requires IsStream(task, log + [env])
    ensures IsStream(task, log)
    ensures forall f :: f in FirstFrame(env) ==> IsFresh(ClientAfter(log), f)
  {
    var longer := log + [env];
    assert longer[|log|] == env;
    assert forall i :: 0 <= i < |log| ==> log[i] == longer[i];
    CursorTracksLog(task, log);
  }

  lemma OneEnvelope(server: Server, running: bool, memory: nat, env: Envelope)
    requires server.status == Idle <==> !running
    requires env.taskId in server.closed ==> server.status == Idle
    ensures (Observe(server, memory, env).status == Idle <==> !RunningAfter(running, env.payload))
       <==> Orderly(server, env)
  {
  }

  /** A task asks, or is suspended on a question. */
  predicate SaysWaiting(p: Payload) {
    || p.UserQuestionRequested?
    || (p.TaskSuspended? && !OnBarrier(p) && p.wakeOn.handle.Some? && "question-" <= p.wakeOn.handle.value)
  }

  predicate OnBarrier(p: Payload) {
    p.TaskSuspended? && (p.wakeOn.tag == "subtask_group_completed" || p.wakeOn.tag == "subtask_completed")
  }

  predicate SaysRunning(p: Payload) {
    p.TaskStarted? || p.TaskWoken? || OnBarrier(p)
  }

  predicate Ends(p: Payload) {
    p.TaskCancelled? || p.TaskFailed? || p.TaskCompleted?
  }

  predicate SaysIdle(p: Payload) {
    Ends(p) || (p.TaskSuspended? && !SaysWaiting(p) && !SaysRunning(p))
  }

  /** The last envelope of a log that speaks of the status says this. */
  ghost predicate LastWord(log: seq<Envelope>, says: Payload -> bool) {
    exists i :: 0 <= i < |log| && says(log[i].payload)
             && forall j :: i < j < |log| ==> !Speaks(log[j].payload)
  }

  predicate Speaks(p: Payload) {
    SaysWaiting(p) || SaysRunning(p) || SaysIdle(p)
  }

  lemma LastWordSnoc(log: seq<Envelope>, env: Envelope, says: Payload -> bool)
    requires forall p :: says(p) ==> Speaks(p)
    ensures LastWord(log + [env], says) <==> says(env.payload) || (LastWord(log, says) && !Speaks(env.payload))
  {
    hide Speaks;
    var all := log + [env];
    if LastWord(all, says) && !says(env.payload) {
      var i :| 0 <= i < |all| && says(all[i].payload) && forall j :: i < j < |all| ==> !Speaks(all[j].payload);
      assert i < |log| && all[|log|] == env;
      assert says(log[i].payload) && forall j :: i < j < |log| ==> all[j] == log[j];
    }
    if says(env.payload) { assert says(all[|log|].payload); }
    if LastWord(log, says) && !Speaks(env.payload) {
      var i :| 0 <= i < |log| && says(log[i].payload) && forall j :: i < j < |log| ==> !Speaks(log[j].payload);
      assert says(all[i].payload);
    }
  }

  /** Until a task ends, the server's status is the last word of its log: waiting on a question or a
      suspension for one, running on a start, a wake-up or a subtask barrier, idle on anything else that
      stops it, and idle before the first word. */
  lemma {:induction false} StatusIsTheLastWord(task: string, memory: nat, log: seq<Envelope>)
    requires IsStream(task, log) && memory >= 1
    requires forall i :: 0 <= i < |log| - 1 ==> !Ends(log[i].payload)
    ensures var status := ServerAfter(memory, log).status;
            && (status == Waiting <==> LastWord(log, SaysWaiting))
            && (status == Running <==> LastWord(log, SaysRunning))
            && (LastWord(log, SaysIdle) ==> status == Idle)
  {
    if log != [] {
      var front, env := log[..|log| - 1], log[|log| - 1];
      assert log == front + [env];
      assert forall i :: 0 <= i < |front| ==> front[i] == log[i];
      StatusIsTheLastWord(task, memory, front);
      NothingClosed(task, memory, front);
      WordOf(env.payload);
      LastWordSnoc(front, env, SaysWaiting);
      LastWordSnoc(front, env, SaysRunning);
      LastWordSnoc(front, env, SaysIdle);
      assert !(LastWord(front, SaysIdle) && LastWord(front, SaysRunning));
      hide LastWord;
      hide StatusFor;
      hide SaysWaiting;
      hide SaysRunning;
      hide SaysIdle;
    }
  }

  lemma WordOf(p: Payload)
    ensures SaysWaiting(p) <==> StatusFor(p) == Some(Waiting)
    ensures SaysRunning(p) <==> StatusFor(p) == Some(Running)
    ensures SaysIdle(p) <==> StatusFor(p) == Some(Idle)
  {
  }

  lemma {:induction false} NothingClosed(task: string, memory: nat, log: seq<Envelope>)
    requires forall i :: 0 <= i < |log| ==> !Ends(log[i].payload)
    ensures ServerAfter(memory, log).closed == []
  {
    if log != [] {
      NothingClosed(task, memory, log[..|log| - 1]);
    }
  }

  /** One more envelope keeps the two sides in agreement exactly when it is orderly. */
  lemma StepAgrees(task: string, memory: nat, log: seq<Envelope>, env: Envelope)
    requires IsStream(task, log + [env]) && memory >= 1
    requires AgreeAfter(memory, log)
    ensures AgreeAfter(memory, log + [env]) <==> Orderly(ServerAfter(memory, log), env)
  {
    var longer := log + [env];
    assert longer[..|log|] == log && longer[|log|] == env;
    NextIsFresh(task, log, env);
    OnlyThisTaskCloses(task, memory, log);
    FoldEventsConcat(INITIAL, FirstFrames(log), FirstFrame(env));
    FirstFrameRunning(ClientAfter(log), env);
    OneEnvelope(ServerAfter(memory, log), ClientAfter(log).running, memory, env);
  }

  ghost predicate AlwaysAgree(memory: nat, log: seq<Envelope>) {
    AgreeAfter(memory, log) && (log != [] ==> AlwaysAgree(memory, log[..|log| - 1]))
  }

  ghost predicate OrderlyLog(memory: nat, log: seq<Envelope>) {
    log != [] ==>
      && OrderlyLog(memory, log[..|log| - 1])
      && Orderly(ServerAfter(memory, log[..|log| - 1]), log[|log| - 1])
  }

  /** Server and client agree on rest after every envelope of a log exactly when every envelope is orderly. */
  lemma {:induction false} AgreeOnRest(task: string, memory: nat, log: seq<Envelope>)
    requires IsStream(task, log) && memory >= 1
    ensures AlwaysAgree(memory, log) <==> OrderlyLog(memory, log)
  {
    if log != [] {
      var front, env := log[..|log| - 1], log[|log| - 1];
      assert log == front + [env];
      AgreeOnRest(task, memory, front);
      if AgreeAfter(memory, front) {
        StepAgrees(task, memory, front, env);
      } else {
        assert !AlwaysAgree(memory, front);
      }
    }
  }
}
