/** Frames without a seq that reach a client twice: the inherited prefix of a fork when a client that has
    not passed seq 0 asks for a second full replay, and the steps of a subtask that were fanned out
    between the subscription and the read of the full replay that also splices them in. */
module SecondReplay {
  import opened Collections
  import opened UIEvents
  import opened Translator
  import opened Conversation
  import opened ConversationLaws
  import opened Replay
  import CallHistory

  /** The client has seen every durable frame. */
  predicate Seen(s: State, frames: seq<Frame>) {
    forall f :: f in frames && IsDurable(f) ==> !IsFresh(s, f)
  }

  lemma SeenStays(s: State, f: Frame)
    requires IsDurable(f) ==> !IsFresh(s, f)
    ensures FoldEvent(s, f).cursors == s.cursors
    ensures IsDurable(f) ==> FoldEvent(s, f) == s
  {
    FoldMovesOneCursor(s, f);
  }

  lemma {:induction false} SeenThroughout(s: State, frames: seq<Frame>)
    requires Seen(s, frames)
    ensures FoldEvents(s, frames).cursors == s.cursors
  {
    hide FoldEvent;
    if frames != [] {
      var front, f := frames[..|frames| - 1], frames[|frames| - 1];
      assert f in frames && forall e :: e in front ==> e in frames;
      SeenThroughout(s, front);
      SeenStays(FoldEvents(s, front), f);
    }
  }

  // ---------------------------------------------------------------------------
  // What is doubled
  // ---------------------------------------------------------------------------

  /** A synthetic item that nothing removes. */
  function Lasting(): Item -> bool {
    (it: Item) => it.key < 0 && !it.StepItem? && !(it.UserItem? && it.pending)
  }

  /** A frame without a seq that leaves such an item whenever it comes. */
  function LeavesLasting(): Frame -> bool {
    (f: Frame) =>
      && f.seqNo.None?
      && (f.event.UserMessage? || f.event.AssistantText? || f.event.ThinkingText? || f.event.RecallText?
          || f.event.MemoryOp? || f.event.SkillActivated? || f.event.QuestionAsked? || f.event.Compaction?
          || f.event.ErrorNotice?)
  }

  function Count(items: seq<Item>): nat {
    |Filter(Lasting(), items)|
  }

  lemma CountSnoc(items: seq<Item>, it: Item)
    ensures Count(items + [it]) == Count(items) + if Lasting()(it) then 1 else 0
  {
    assert (items + [it])[..|items|] == items;
  }

  lemma UpdateSnoc<T>(items: seq<T>, index: nat, it: T)
    requires index < |items|
    ensures var n := |items| - 1;
            && items == items[..n] + [items[n]]
            && items[index := it] == if index == n then items[..n] + [it] else items[..n][index := it] + [items[n]]
  {
  }

  lemma {:induction false} CountUpdate(items: seq<Item>, index: nat, it: Item)
    requires index < |items|
    ensures Count(items[index := it])
         == Count(items) - (if Lasting()(items[index]) then 1 else 0) + if Lasting()(it) then 1 else 0
  {
    hide Count;
    hide Lasting;
    var n := |items| - 1;
    UpdateSnoc(items, index, it);
    CountSnoc(items[..n], items[n]);
    if index == n {
      CountSnoc(items[..n], it);
    } else {
      CountUpdate(items[..n], index, it);
      CountSnoc(items[..n][index := it], items[n]);
    }
  }

  lemma MapSnoc(items: seq<Item>, f: Item -> Item)
    requires items != []
    ensures var n := |items| - 1;
            items == items[..n] + [items[n]] && MapItems(items, f) == MapItems(items[..n], f) + [f(items[n])]
  {
  }

  lemma {:induction false} CountClosed(items: seq<Item>, status: TurnStatus)
    ensures Count(MapItems(items, ForceClose(status))) == Count(items)
  {
    if items != [] {
      var front, last := items[..|items| - 1], items[|items| - 1];
      CountClosed(front, status);
      MapSnoc(items, ForceClose(status));
      CountSnoc(front, last);
      CountSnoc(MapItems(front, ForceClose(status)), ForceClose(status)(last));
      hide Count;
      hide MapItems;
      assert Lasting()(ForceClose(status)(last)) == Lasting()(last);
    }
  }

  lemma CountTruncated(items: seq<Item>, target: int)
    ensures Count(Truncate(items, target)) == Count(items)
  {
    TruncateIsFilter(items, target);
    FilterFilter(Survives(LiveCards(items, target), target), Lasting(), Lasting(), items);
  }

  lemma EditCounts(s: State, f: Frame)
    requires s.nextKey < 0
    ensures Count(Edited(s.items, EditOf(s.items, s.nextKey, f)))
        >= Count(s.items) + if LeavesLasting()(f) then 1 else 0
  {
    var e := EditOf(s.items, s.nextKey, f);
    EditLasts(s, f);
    match e
    case Unchanged =>
    case Appended(item) => CountSnoc(s.items, item);
    case Replaced(index, item) => CountUpdate(s.items, index, item);
    case Closed(status) => CountClosed(s.items, status);
    case Truncated(target) => CountTruncated(s.items, target);
    hide EditOf;
    hide Count;
  }

  lemma EditLasts(s: State, f: Frame)
    requires s.nextKey < 0
    ensures var e := EditOf(s.items, s.nextKey, f);
            && (LeavesLasting()(f) ==> e.Appended? || e.Replaced?)
            && (e.Appended? && LeavesLasting()(f) ==> Lasting()(e.item))
            && (e.Replaced? ==>
                  && e.index < |s.items|
                  && (Lasting()(s.items[e.index]) ==> Lasting()(e.item))
                  && (LeavesLasting()(f) ==> Lasting()(e.item) && !Lasting()(s.items[e.index])))
  {
    hide FindLast;
  }

  lemma FoldCounts(s: State, f: Frame)
    requires s.nextKey < 0
    ensures Count(FoldEvent(s, f).items) >= Count(s.items) + if LeavesLasting()(f) then 1 else 0
    ensures FoldEvent(s, f).nextKey < 0
  {
    if IsFresh(s, f) {
      EditCounts(s, f);
      assert FoldEvent(s, f).items == Edited(s.items, EditOf(s.items, s.nextKey, f));
    }
  }

  /** Whatever else a replay holds and whatever the client has seen, it adds an item for every message,
      text, card or notice it sends without a seq: a fork that inherits any of them doubles. */
  lemma {:induction false} SecondReplayDoubles(s: State, frames: seq<Frame>)
    requires s.nextKey < 0
    ensures Count(FoldEvents(s, frames).items) >= Count(s.items) + |Filter(LeavesLasting(), frames)|
    ensures FoldEvents(s, frames).nextKey < 0
  {
    hide FoldEvent;
    hide Count;
    hide LeavesLasting;
    if frames != [] {
      var front, f := frames[..|frames| - 1], frames[|frames| - 1];
      SecondReplayDoubles(s, front);
      FoldCounts(FoldEvents(s, front), f);
    }
  }

  /** The witness: a fork that inherits one message and has not run yet. A client that reconnects, still
      without a cursor, shows the message twice. */
  lemma ForkShowsTwice(seqNo: nat, source: string, task: string, ts: Option<int>, text: string)
    requires text != ""
    ensures var parent := [Envelope(seqNo, source, ts, MessagesAppended([Typed(text, [])]))];
            var replay := ReplayFrames(task, [], map[], Some(Fork(parent, None)), None);
            FoldEvents(INITIAL, replay + replay).items
            == [UserItem(-1, Some(task), ts, text, [], false), UserItem(-2, Some(task), ts, text, [], false)]
  {
    var env := Envelope(seqNo, source, ts, MessagesAppended([Typed(text, [])]));
    var fork := Fork([env], None);
    var replay := ReplayFrames(task, [], map[], Some(fork), None);
    var f := Frame(None, Some(task), ts, UserMessage(text, []));
    InheritsOne(env, task, text);
    ReplaysOne(env, task, f);
    hide *;
    FoldsTwo(f, f);
    AppendsMessage(INITIAL, f, text);
    AppendsMessage(FoldEvent(INITIAL, f), f, text);
  }

  lemma InheritsOne(env: Envelope, task: string, text: string)
    requires text != "" && env.payload == MessagesAppended([Typed(text, [])])
    ensures Inherited(env, task) == [Frame(None, Some(task), env.occurredAt, UserMessage(text, []))]
  {
    var m := Typed(text, []);
    assert [m][..0] == [];
    assert FromMessages([m]) == [UserMessage(text, [])];
  }

  lemma ReplaysOne(env: Envelope, task: string, f: Frame)
    requires Inherited(env, task) == [f]
    ensures ReplayFrames(task, [], map[], Some(Fork([env], None)), None) == [f]
  {
    hide Inherited;
    hide Filter;
    var fork := Fork([env], None);
    FilterAll(BeforeBranchTest(fork), [env]);
    assert [env][..0] == [];
    assert InheritedFrames([], task) == [];
    assert InheritedFrames([env], task) == [] + [f];
    FullReplay(task, [], map[], Some(fork), None);
    hide ReplayFrames;
    assert OwnFrames([], map[], task, true) == [] && [f] + [] == [f];
  }

  lemma FoldsTwo(e: Frame, f: Frame)
    ensures FoldEvents(INITIAL, [e]) == FoldEvent(INITIAL, e)
    ensures FoldEvents(INITIAL, [e] + [f]) == FoldEvent(FoldEvent(INITIAL, e), f)
  {
    hide FoldEvent;
    assert ([e] + [f])[..1] == [e] && [e][..0] == [];
    assert FoldEvents(INITIAL, []) == INITIAL;
    assert FoldEvents(INITIAL, [e]) == FoldEvent(INITIAL, e);
  }

  lemma AppendsMessage(s: State, f: Frame, text: string)
    requires f.event == UserMessage(text, []) && f.seqNo.None? && forall it :: it in s.items ==> Acknowledged()(it)
    ensures var after := FoldEvent(s, f);
            && after.items == s.items + [UserItem(s.nextKey, f.task, f.ts, text, [], false)]
            && after.nextKey == s.nextKey - 1
  {
    forall i | 0 <= i < |s.items| ensures !IsEcho(text, f.task)(s.items[i]) {
      assert s.items[i] in s.items && Acknowledged()(s.items[i]);
    }
  }

  // ---------------------------------------------------------------------------
  // When nothing changes
  // ---------------------------------------------------------------------------

  /** How far an item has come: no frame but a rewind or a new checklist takes it back. */
  function Weight(it: Item): nat {
    1 + (if it.StepItem? && it.stepStatus != StepRunning then 1 else 0)
    + (if it.SubtaskItem? && it.cardStatus != SubtaskRunning then 1 else 0)
    + (if it.UserItem? && !it.pending then 1 else 0)
    + (if it.QuestionItem? && it.answered then 1 else 0) + (if it.QuestionItem? && it.withdrawn then 1 else 0)
  }

  function TotalWeight(items: seq<Item>): nat {
    if items == [] then 0 else TotalWeight(items[..|items| - 1]) + Weight(items[|items| - 1])
  }

  lemma WeightSnoc(items: seq<Item>, it: Item)
    ensures TotalWeight(items + [it]) == TotalWeight(items) + Weight(it)
  {
    assert (items + [it])[..|items|] == items;
  }

  lemma {:induction false} WeightUpdate(items: seq<Item>, index: nat, it: Item)
    requires index < |items|
    ensures TotalWeight(items[index := it]) == TotalWeight(items) - Weight(items[index]) + Weight(it)
  {
    hide TotalWeight;
    hide Weight;
    var n := |items| - 1;
    UpdateSnoc(items, index, it);
    WeightSnoc(items[..n], items[n]);
    if index == n {
      WeightSnoc(items[..n], it);
    } else {
      WeightUpdate(items[..n], index, it);
      WeightSnoc(items[..n][index := it], items[n]);
    }
  }

  lemma {:induction false} WeightClosed(items: seq<Item>, status: TurnStatus)
    ensures var closed := MapItems(items, ForceClose(status));
            closed == items || TotalWeight(closed) > TotalWeight(items)
    ensures TotalWeight(MapItems(items, ForceClose(status))) >= TotalWeight(items)
  {
    if items != [] {
      var front, last := items[..|items| - 1], items[|items| - 1];
      WeightClosed(front, status);
      MapSnoc(items, ForceClose(status));
      WeightSnoc(front, last);
      WeightSnoc(MapItems(front, ForceClose(status)), ForceClose(status)(last));
      hide TotalWeight;
      hide MapItems;
      assert ForceClose(status)(last) == last || Weight(ForceClose(status)(last)) > Weight(last);
    }
  }

  /** What the frame does to a list: the key counter does not matter for whether it does anything. */
  function After(items: seq<Item>, nextKey: int, f: Frame): seq<Item> {
    Edited(items, EditOf(items, nextKey, f))
  }

  predicate NoOp(items: seq<Item>, f: Frame) {
    After(items, -1, f) == items
  }

  /** A frame that can take nothing back. */
  predicate OnlyForward(f: Frame) {
    !f.event.Rewind? && !f.event.TodoUpdate?
  }

  lemma EditWeighs(items: seq<Item>, nextKey: int, f: Frame)
    requires OnlyForward(f)
    ensures After(items, nextKey, f) == items || TotalWeight(After(items, nextKey, f)) > TotalWeight(items)
  {
    var e := EditOf(items, nextKey, f);
    match e
    case Appended(item) => assert (items + [item])[..|items|] == items;
    case Replaced(index, item) =>
      ReplacedWeighs(items, nextKey, f);
      WeightUpdate(items, index, item);
      assert item == items[index] ==> items[index := item] == items;
    case Closed(status) => WeightClosed(items, status);
    case Truncated(_) => NeverTruncates(items, nextKey, f);
    case Unchanged =>
  }

  lemma NeverTruncates(items: seq<Item>, nextKey: int, f: Frame)
    requires OnlyForward(f)
    ensures !EditOf(items, nextKey, f).Truncated?
  {
    hide FindLast;
  }

  lemma ReplacedWeighs(items: seq<Item>, nextKey: int, f: Frame)
    requires OnlyForward(f) && EditOf(items, nextKey, f).Replaced?
    ensures var e := EditOf(items, nextKey, f);
            e.index < |items| && (e.item == items[e.index] || Weight(e.item) > Weight(items[e.index]))
  {
    hide FindLast;
  }

  lemma NoOpForAnyKey(items: seq<Item>, nextKey: int, f: Frame)
    requires OnlyForward(f)
    ensures After(items, nextKey, f) == items <==> NoOp(items, f)
  {
    SameEdit(items, nextKey, f);
    hide EditOf;
    var e := EditOf(items, nextKey, f);
    if e.Appended? {
      assert |After(items, nextKey, f)| == |items| + 1 == |After(items, -1, f)|;
    } else if e.Replaced? && f.event.UserMessage? {
      assert After(items, nextKey, f)[e.index] != items[e.index] && After(items, -1, f)[e.index] != items[e.index];
    }
  }

  lemma SameEdit(items: seq<Item>, nextKey: int, f: Frame)
    ensures var e, d := EditOf(items, nextKey, f), EditOf(items, -1, f);
            && (e.Appended? <==> d.Appended?)
            && (!e.Appended? && !f.event.UserMessage? ==> e == d)
            && (f.event.UserMessage? && e.Replaced? ==>
                  && d.Replaced? && d.index == e.index < |items|
                  && !e.item.pending && !d.item.pending && items[e.index].UserItem? && items[e.index].pending
                  && e.item.UserItem? && d.item.UserItem?)
            && (f.event.UserMessage? ==> e.Appended? || e.Replaced?)
  {
    hide FindLast;
  }

  /** The synthetic frames of a replay that can take nothing back leave a list alone together exactly
      when each of them does. */
  lemma {:induction false} QuietTogether(s: State, frames: seq<Frame>)
    requires Seen(s, frames)
    requires forall f :: f in frames && f.seqNo.None? ==> OnlyForward(f)
    ensures var after := FoldEvents(s, frames).items;
            after == s.items || TotalWeight(after) > TotalWeight(s.items)
    ensures FoldEvents(s, frames).items == s.items
       <==> forall f :: f in frames && f.seqNo.None? ==> NoOp(s.items, f)
  {
    hide OnlyForward;
    if frames != [] {
      var front, f := frames[..|frames| - 1], frames[|frames| - 1];
      assert frames == front + [f] && f in frames && forall e :: e in front ==> e in frames;
      QuietTogether(s, front);
      SeenThroughout(s, front);
      var mid := FoldEvents(s, front);
      OneFrame(mid, f);
      if f.seqNo.None? {
        EditWeighs(mid.items, mid.nextKey, f);
        NoOpForAnyKey(mid.items, mid.nextKey, f);
      }
    }
    hide FoldEvent;
    hide NoOp;
    hide After;
  }

  lemma OneFrame(s: State, f: Frame)
    requires IsDurable(f) ==> !IsFresh(s, f)
    ensures FoldEvent(s, f).items == if f.seqNo.None? then After(s.items, s.nextKey, f) else s.items
  {
  }

  // ---------------------------------------------------------------------------
  // The overlap of a full replay and the live stream
  // ---------------------------------------------------------------------------

  /** After folding frames the client has seen all of them. */
  lemma {:induction false} FoldCovers(s: State, frames: seq<Frame>)
    ensures Seen(FoldEvents(s, frames), frames)
  {
    hide FoldEvent;
    if frames != [] {
      var front, last := frames[..|frames| - 1], frames[|frames| - 1];
      FoldCovers(s, front);
      FoldMovesOneCursor(FoldEvents(s, front), last);
      assert frames == front + [last];
    }
  }

  /** What a subtask's stream can send. */
  predicate OfSubtask(f: Frame) {
    f.seqNo.None? && (f.event.ToolCall? || f.event.ToolResult? || f.event.SubtaskFinished?)
  }

  lemma {:induction false} SubtaskFramesAre(log: seq<Envelope>, subtaskId: string, task: string)
    ensures forall f :: f in SubtaskFrames(log, subtaskId, task) ==> OfSubtask(f)
  {
    if log != [] {
      SubtaskFramesAre(log[..|log| - 1], subtaskId, task);
    }
  }

  lemma {:induction false} OwnFramesAre(log: seq<Envelope>, subtasks: map<string, seq<Envelope>>, task: string,
                                        full: bool)
    ensures forall f :: f in OwnFrames(log, subtasks, task, full) ==> IsDurable(f) || OfSubtask(f)
  {
    hide OfSubtask;
    if log != [] {
      var env := log[|log| - 1];
      OwnFramesAre(log[..|log| - 1], subtasks, task, full);
      if SpawnOf(env).Some? && SpawnOf(env).value in subtasks {
        SubtaskFramesAre(subtasks[SpawnOf(env).value], SpawnOf(env).value, task);
      }
      hide SpawnOf;
      hide SubtaskFrames;
    }
  }

  /** A subtask frame that finds everything as it left it. */
  predicate Settles(items: seq<Item>, f: Frame) {
    match f.event
    case ToolCall(callId, _, _, _) => Exists(items, IsStepOf(callId))
    case ToolResult(callId, _, _, _) => !Exists(items, IsRunningStepOf(callId))
    case _ => false
  }

  lemma SubtaskNoOp(items: seq<Item>, f: Frame)
    requires OfSubtask(f)
    ensures NoOp(items, f) <==> Settles(items, f)
  {
    var e := EditOf(items, -1, f);
    if e.Replaced? {
      assert e.index < |items|;
      assert items[e.index := e.item][e.index] == e.item;
    }
    hide FindLast;
  }

  /** The frames were fanned out after the subscription and read again by the replay: the session's own
      frames and those of its subtasks, in any order and number. */
  predicate Overlaps(live: seq<Frame>, task: string, own: seq<Envelope>, subtasks: map<string, seq<Envelope>>) {
    forall f :: f in live ==> f in OwnFrames(own, subtasks, task, true)
  }

  lemma FullReplay(task: string, own: seq<Envelope>, subtasks: map<string, seq<Envelope>>, fork: Option<Fork>,
                   since: Option<nat>)
    requires ReplayFloor(since).None?
    ensures ReplayFrames(task, own, subtasks, fork, since)
         == InheritedPrefix(fork, task) + OwnFrames(own, subtasks, task, true)
  {
    FilterAll(PastSeq(None), own);
  }

  lemma OverlapIsSeen(s: State, task: string, own: seq<Envelope>, subtasks: map<string, seq<Envelope>>,
                      fork: Option<Fork>, since: Option<nat>, live: seq<Frame>)
    requires ReplayFloor(since).None? && Overlaps(live, task, own, subtasks)
    ensures Seen(FoldEvents(s, ReplayFrames(task, own, subtasks, fork, since)), live)
    ensures forall f :: f in live ==> f in ReplayFrames(task, own, subtasks, fork, since)
    ensures forall f :: f in live && f.seqNo.None? ==> OfSubtask(f)
  {
    FullReplay(task, own, subtasks, fork, since);
    OwnFramesAre(own, subtasks, task, true);
    FoldCovers(s, ReplayFrames(task, own, subtasks, fork, since));
    hide ReplayFrames;
    hide OwnFrames;
    hide InheritedPrefix;
    hide FoldEvents;
    hide IsFresh;
    hide OfSubtask;
  }

  /** After a full replay the live frames it has already read leave the items alone exactly when every
      call among them still has its step, no result finds one running, and no subtask was cancelled:
      no cursor drops them, since they carry no seq. */
  lemma OverlapIsQuiet(s: State, task: string, own: seq<Envelope>, subtasks: map<string, seq<Envelope>>,
                       fork: Option<Fork>, since: Option<nat>, live: seq<Frame>)
    requires ReplayFloor(since).None? && Overlaps(live, task, own, subtasks)
    ensures var after := FoldEvents(s, ReplayFrames(task, own, subtasks, fork, since));
            FoldEvents(after, live).items == after.items
            <==> forall f :: f in live && f.seqNo.None? ==> Settles(after.items, f)
  {
    var after := FoldEvents(s, ReplayFrames(task, own, subtasks, fork, since));
    OverlapIsSeen(s, task, own, subtasks, fork, since, live);
    hide FoldEvents;
    hide ReplayFrames;
    hide NoOp;
    hide Settles;
    hide Seen;
    hide Overlaps;
    forall f | f in live && f.seqNo.None?
      ensures OnlyForward(f) && (NoOp(after.items, f) <==> Settles(after.items, f))
    {
      SubtaskNoOp(after.items, f);
    }
    QuietTogether(after, live);
  }

  // ---------------------------------------------------------------------------
  // The same by the frames alone
  // ---------------------------------------------------------------------------

  predicate HasStep(items: seq<Item>, callId: string) {
    exists i :: 0 <= i < |items| && IsStepOf(callId)(items[i])
  }

  predicate HasRunning(items: seq<Item>, callId: string) {
    exists i :: 0 <= i < |items| && IsRunningStepOf(callId)(items[i])
  }

  /** The list kept its items in place: a step is the same call's and did not start again. */
  predicate StepsKept(items: seq<Item>, after: seq<Item>) {
    && |items| <= |after|
    && forall i :: 0 <= i < |items| ==>
         && (after[i].StepItem? <==> items[i].StepItem?)
         && (after[i].StepItem? ==>
               && after[i].callId == items[i].callId
               && (after[i].stepStatus == StepRunning ==> items[i].stepStatus == StepRunning))
  }

  /** At most one item was added, and a step only for a call that had none. */
  predicate OneAdded(items: seq<Item>, after: seq<Item>) {
    && |after| <= |items| + 1
    && (|after| > |items| && after[|items|].StepItem? ==> !HasStep(items, after[|items|].callId))
  }

  lemma AddedStepIsNew(s: State, f: Frame)
    requires !f.event.Rewind?
    ensures var e := EditOf(s.items, s.nextKey, f);
            !e.Truncated? && (e.Appended? && e.item.StepItem? ==> !Exists(s.items, IsStepOf(e.item.callId)))
  {
    hide FindLast;
  }

  lemma RewrittenStepRests(s: State, f: Frame)
    ensures var e := EditOf(s.items, s.nextKey, f);
            e.Replaced? ==>
              && e.index < |s.items|
              && (e.item.StepItem? <==> s.items[e.index].StepItem?)
              && (e.item.StepItem? ==>
                    e.item.callId == s.items[e.index].callId && e.item.stepStatus != StepRunning)
  {
    hide FindLast;
    hide Exists;
    hide KeyFor;
  }

  lemma EditKeepsSteps(s: State, f: Frame)
    requires !f.event.Rewind?
    ensures var after := Edited(s.items, EditOf(s.items, s.nextKey, f));
            StepsKept(s.items, after) && OneAdded(s.items, after)
  {
    var e := EditOf(s.items, s.nextKey, f);
    AddedStepIsNew(s, f);
    RewrittenStepRests(s, f);
    if e.Appended? && e.item.StepItem? { ExistsMeans(s.items, e.item.callId); }
    hide EditOf;
    hide HasStep;
    hide Exists;
  }

  lemma KeptStepsAreUnique(items: seq<Item>, after: seq<Item>)
    requires CallHistory.UniqueCalls(items) && StepsKept(items, after) && OneAdded(items, after)
    ensures CallHistory.UniqueCalls(after)
  {
    forall i | 0 <= i < |items| && items[i].StepItem? ensures HasStep(items, items[i].callId) {
      assert IsStepOf(items[i].callId)(items[i]);
    }
  }

  lemma KeptStepsStay(items: seq<Item>, after: seq<Item>, callId: string)
    requires StepsKept(items, after) && OneAdded(items, after) && HasStep(items, callId)
    ensures HasStep(after, callId)
    ensures HasRunning(after, callId) ==> HasRunning(items, callId)
  {
    var i :| 0 <= i < |items| && IsStepOf(callId)(items[i]);
    assert IsStepOf(callId)(after[i]);
    if HasRunning(after, callId) {
      var j :| 0 <= j < |after| && IsRunningStepOf(callId)(after[j]);
      assert j < |items| && IsRunningStepOf(callId)(items[j]);
    }
  }

  lemma FoldKeepsSteps(s: State, f: Frame)
    requires !f.event.Rewind? && CallHistory.UniqueCalls(s.items)
    ensures StepsKept(s.items, FoldEvent(s, f).items) && CallHistory.UniqueCalls(FoldEvent(s, f).items)
    ensures forall callId :: HasStep(s.items, callId) ==> HasStep(FoldEvent(s, f).items, callId)
    ensures forall callId :: HasStep(s.items, callId) && HasRunning(FoldEvent(s, f).items, callId) ==>
              HasRunning(s.items, callId)
  {
    var after := FoldEvent(s, f).items;
    if IsFresh(s, f) {
      EditKeepsSteps(s, f);
      assert after == Edited(s.items, EditOf(s.items, s.nextKey, f));
      hide EditOf;
      hide Edited;
      hide FoldEvent;
      hide StepsKept;
      KeptStepsAreUnique(s.items, after);
      forall callId | HasStep(s.items, callId)
        ensures HasStep(after, callId) && (HasRunning(after, callId) ==> HasRunning(s.items, callId))
      {
        KeptStepsStay(s.items, after, callId);
      }
    }
  }

  lemma {:induction false} FoldAllKeepsSteps(s: State, frames: seq<Frame>)
    requires CallHistory.UniqueCalls(s.items) && forall f :: f in frames ==> !f.event.Rewind?
    ensures CallHistory.UniqueCalls(FoldEvents(s, frames).items)
    ensures forall callId :: HasStep(s.items, callId) ==> HasStep(FoldEvents(s, frames).items, callId)
    ensures forall callId :: HasStep(s.items, callId) && HasRunning(FoldEvents(s, frames).items, callId) ==>
              HasRunning(s.items, callId)
  {
    hide FoldEvent;
    hide HasStep;
    hide HasRunning;
    hide CallHistory.UniqueCalls;
    if frames != [] {
      var front, last := frames[..|frames| - 1], frames[|frames| - 1];
      assert last in frames && forall f :: f in front ==> f in frames;
      FoldAllKeepsSteps(s, front);
      FoldKeepsSteps(FoldEvents(s, front), last);
    }
  }

  lemma CallLeavesStep(s: State, f: Frame)
    requires f.seqNo.None? && f.event.ToolCall?
    ensures HasStep(FoldEvent(s, f).items, f.event.callId)
  {
    var callId, after := f.event.callId, FoldEvent(s, f).items;
    if Exists(s.items, IsStepOf(callId)) {
      assert after == s.items && IsStepOf(callId)(after[FindLast(s.items, IsStepOf(callId))]);
    } else {
      assert IsStepOf(callId)(after[|s.items|]);
    }
  }

  lemma ResultStopsStep(s: State, f: Frame)
    requires f.seqNo.None? && f.event.ToolResult? && CallHistory.UniqueCalls(s.items)
    ensures !HasRunning(FoldEvent(s, f).items, f.event.callId)
  {
    var callId, after := f.event.callId, FoldEvent(s, f).items;
    var index := FindLast(s.items, IsRunningStepOf(callId));
    if index >= 0 {
      assert after == s.items[index := s.items[index].(
        stepStatus := if f.event.success then StepSucceeded else StepFailed,
        stepSummary := Some(f.event.summary), output := Some(f.event.output))];
    } else {
      assert after == s.items;
    }
  }

  /** The call is among these frames, and a result of it comes later. */
  predicate CallThenResult(frames: seq<Frame>, callId: string) {
    exists i, j :: 0 <= i < j < |frames| && CallsStep(frames[i], callId) && EndsStep(frames[j], callId)
  }

  predicate CallsStep(f: Frame, callId: string) {
    f.seqNo.None? && f.event.ToolCall? && f.event.callId == callId
  }

  predicate EndsStep(f: Frame, callId: string) {
    f.seqNo.None? && f.event.ToolResult? && f.event.callId == callId
  }

  lemma FoldSplits(s: State, frames: seq<Frame>, i: nat)
    requires i < |frames|
    ensures FoldEvents(s, frames)
         == FoldEvents(FoldEvent(FoldEvents(s, frames[..i]), frames[i]), frames[i + 1..])
    ensures forall f :: f in frames[..i] || f in frames[i + 1..] ==> f in frames
  {
    hide FoldEvent;
    assert frames == frames[..i + 1] + frames[i + 1..] && frames[..i + 1][..i] == frames[..i];
    FoldEventsConcat(s, frames[..i + 1], frames[i + 1..]);
  }

  /** Without a rewind a replay ends with a step for each of its calls. */
  lemma CallEndsWithStep(s: State, frames: seq<Frame>, i: nat)
    requires CallHistory.UniqueCalls(s.items) && forall f :: f in frames ==> !f.event.Rewind?
    requires i < |frames| && frames[i].seqNo.None? && frames[i].event.ToolCall?
    ensures HasStep(FoldEvents(s, frames).items, frames[i].event.callId)
  {
    hide *;
    FoldSplits(s, frames, i);
    FoldAllKeepsSteps(s, frames[..i]);
    var mid := FoldEvents(s, frames[..i]);
    assert frames[i] in frames;
    CallLeavesStep(mid, frames[i]);
    FoldKeepsSteps(mid, frames[i]);
    FoldAllKeepsSteps(FoldEvent(mid, frames[i]), frames[i + 1..]);
  }

  /** And a call whose result it holds is not running. */
  lemma ResultEndsAtRest(s: State, frames: seq<Frame>, callId: string)
    requires CallHistory.UniqueCalls(s.items) && forall f :: f in frames ==> !f.event.Rewind?
    requires CallThenResult(frames, callId)
    ensures !HasRunning(FoldEvents(s, frames).items, callId)
  {
    var i, j :| 0 <= i < j < |frames| && CallsStep(frames[i], callId) && EndsStep(frames[j], callId);
    assert frames[..j][i] == frames[i];
    FoldSplits(s, frames, j);
    var mid := FoldEvents(s, frames[..j]);
    FoldAllKeepsSteps(s, frames[..j]);
    CallEndsWithStep(s, frames[..j], i);
    ResultStopsStep(mid, frames[j]);
    FoldKeepsSteps(mid, frames[j]);
    FoldAllKeepsSteps(FoldEvent(mid, frames[j]), frames[j + 1..]);
    hide FoldEvent;
    hide FoldEvents;
    hide HasRunning;
    hide HasStep;
    hide CallHistory.UniqueCalls;
  }

  lemma ExistsMeans(items: seq<Item>, callId: string)
    ensures Exists(items, IsStepOf(callId)) <==> HasStep(items, callId)
    ensures Exists(items, IsRunningStepOf(callId)) <==> HasRunning(items, callId)
  {
  }

  /** A page that loads while subtasks run: if the replay holds no rewind, and every result of the overlap
      behind its call, the overlap is quiet exactly when it holds no end of a cancelled subtask. */
  lemma OnlyCancelsAreLoud(s: State, task: string, own: seq<Envelope>, subtasks: map<string, seq<Envelope>>,
                           fork: Option<Fork>, since: Option<nat>, live: seq<Frame>)
    requires ReplayFloor(since).None? && Overlaps(live, task, own, subtasks) && CallHistory.UniqueCalls(s.items)
    requires forall f :: f in ReplayFrames(task, own, subtasks, fork, since) ==> !f.event.Rewind?
    requires forall f :: f in live && f.seqNo.None? && f.event.ToolResult? ==>
               CallThenResult(ReplayFrames(task, own, subtasks, fork, since), f.event.callId)
    ensures var after := FoldEvents(s, ReplayFrames(task, own, subtasks, fork, since));
            FoldEvents(after, live).items == after.items
            <==> forall f :: f in live && f.seqNo.None? ==> !f.event.SubtaskFinished?
  {
    var replay := ReplayFrames(task, own, subtasks, fork, since);
    var after := FoldEvents(s, replay);
    OverlapIsSeen(s, task, own, subtasks, fork, since, live);
    OverlapIsQuiet(s, task, own, subtasks, fork, since, live);
    hide *;
    forall f | f in live && f.seqNo.None? ensures Settles(after.items, f) <==> !f.event.SubtaskFinished? {
      OnlyCancelsUnsettle(s, replay, f);
    }
  }

  lemma OnlyCancelsUnsettle(s: State, replay: seq<Frame>, f: Frame)
    requires CallHistory.UniqueCalls(s.items) && forall e :: e in replay ==> !e.event.Rewind?
    requires f in replay && OfSubtask(f) && (f.event.ToolResult? ==> CallThenResult(replay, f.event.callId))
    ensures Settles(FoldEvents(s, replay).items, f) <==> !f.event.SubtaskFinished?
  {
    hide FoldEvents;
    hide CallHistory.UniqueCalls;
    hide CallThenResult;
    hide HasStep;
    hide HasRunning;
    hide Exists;
    if !f.event.SubtaskFinished? {
      ExistsMeans(FoldEvents(s, replay).items, f.event.callId);
      if f.event.ToolCall? {
        var i :| 0 <= i < |replay| && replay[i] == f;
        CallEndsWithStep(s, replay, i);
      } else {
        ResultEndsAtRest(s, replay, f.event.callId);
      }
    }
  }

  // ---------------------------------------------------------------------------
  // Two runs that are not quiet
  // ---------------------------------------------------------------------------

  /** The witness: a cancelled subtask's end is spliced in and arrives live as well. It closes the card the
      first time and leaves a second one the next. */
  lemma CancelShowsTwice(spawn: Envelope, cancel: Envelope)
    requires spawn.payload.SubtaskSpawned? && spawn.payload.subtaskId != "" && cancel.payload.TaskCancelled?
    ensures var id, task := spawn.payload.subtaskId, spawn.taskId;
            var subtasks := map[id := [cancel]];
            var live := SubtaskFrames([cancel], id, task);
            var after := FoldEvents(INITIAL, ReplayFrames(task, [spawn], subtasks, None, None));
            && Overlaps(live, task, [spawn], subtasks)
            && |after.items| == 1
            && FoldEvents(after, live).items
               == after.items + [SubtaskItem(-1, Some(task), None, id, "", "", SubtaskEnded("cancelled"), Some(""))]
  {
    var id, task := spawn.payload.subtaskId, spawn.taskId;
    var start := Frame(Some(spawn.seqNo), Some(task), spawn.occurredAt,
                       SubtaskStarted(id, spawn.payload.agentName, spawn.payload.goal));
    var end := Frame(None, Some(task), None, SubtaskFinished(id, "cancelled", ""));
    ReplaysCancel(spawn, cancel, start, end);
    hide *;
    FoldsTwo(start, end);
    ShowsCard(start);
    var s1 := FoldEvent(INITIAL, start);
    ClosesCard(s1, end);
    var s2 := FoldEvent(s1, end);
    FoldsOne(s2, end);
    AddsCard(s2, end);
  }

  lemma ReplaysCancel(spawn: Envelope, cancel: Envelope, start: Frame, end: Frame)
    requires spawn.payload.SubtaskSpawned? && spawn.payload.subtaskId != "" && cancel.payload.TaskCancelled?
    requires start == Frame(Some(spawn.seqNo), Some(spawn.taskId), spawn.occurredAt,
                            SubtaskStarted(spawn.payload.subtaskId, spawn.payload.agentName, spawn.payload.goal))
    requires end == Frame(None, Some(spawn.taskId), None, SubtaskFinished(spawn.payload.subtaskId, "cancelled", ""))
    ensures var id := spawn.payload.subtaskId;
            && SubtaskFrames([cancel], id, spawn.taskId) == [end]
            && ReplayFrames(spawn.taskId, [spawn], map[id := [cancel]], None, None) == [start] + [end]
            && Overlaps([end], spawn.taskId, [spawn], map[id := [cancel]])
  {
    var id, task := spawn.payload.subtaskId, spawn.taskId;
    var subtasks := map[id := [cancel]];
    assert [cancel][..0] == [] && SubtaskFrames([], id, task) == [];
    assert TranslateSubtask(cancel, id, task) == [end];
    assert SubtaskFrames([cancel], id, task) == [] + [end];
    assert Translate(spawn) == [start];
    assert [spawn][..0] == [] && OwnFrames([], subtasks, task, true) == [];
    assert OwnFrames([spawn], subtasks, task, true) == [] + ([start] + [end]);
    FullReplay(task, [spawn], subtasks, None, None);
    assert [] + ([start] + [end]) == [start] + [end];
  }

  lemma FoldsOne(s: State, f: Frame)
    ensures FoldEvents(s, [f]) == FoldEvent(s, f)
  {
    assert [f][..0] == [];
  }

  lemma ShowsCard(start: Frame)
    requires start.event.SubtaskStarted? && IsDurable(start)
    ensures var after := FoldEvent(INITIAL, start);
            && |after.items| == 1 && after.nextKey == -1
            && IsRunningCardOf(start.event.subtaskId)(after.items[0])
  {
  }

  lemma ClosesCard(s: State, end: Frame)
    requires end.event.SubtaskFinished? && !IsDurable(end)
    requires |s.items| == 1 && IsRunningCardOf(end.event.subtaskId)(s.items[0])
    ensures var after := FoldEvent(s, end);
            && |after.items| == 1 && after.nextKey == s.nextKey
            && !IsRunningCardOf(end.event.subtaskId)(after.items[0])
  {
  }

  lemma AddsCard(s: State, end: Frame)
    requires end.event.SubtaskFinished? && !IsDurable(end)
    requires |s.items| == 1 && !IsRunningCardOf(end.event.subtaskId)(s.items[0])
    ensures FoldEvent(s, end).items
         == s.items + [SubtaskItem(s.nextKey, end.task, end.ts, end.event.subtaskId, "", "",
                                   SubtaskEnded(end.event.outcome), Some(end.event.summary))]
  {
  }

  /** With a rewind a call is loud as well: the rewind took the step away with its card, and the live copy
      of the call brings the step back. */
  lemma RewoundStepReturns(spawn: Envelope, call: Envelope, rewind: Envelope)
    requires spawn.payload.SubtaskSpawned? && spawn.payload.subtaskId != "" && call.payload.ToolCallStarted?
    requires rewind.payload.TaskRewound? && rewind.payload.targetSeq < spawn.seqNo < rewind.seqNo
    requires rewind.taskId == spawn.taskId
    ensures var id, task := spawn.payload.subtaskId, spawn.taskId;
            var subtasks := map[id := [call]];
            var live := SubtaskFrames([call], id, task);
            var after := FoldEvents(INITIAL, ReplayFrames(task, [spawn] + [rewind], subtasks, None, None));
            && Overlaps(live, task, [spawn] + [rewind], subtasks)
            && after.items == []
            && FoldEvents(after, live).items
               == [StepItem(-2, Some(task), None, call.payload.callId, call.payload.toolName, call.payload.args,
                            StepRunning, None, None, Some(id))]
  {
    var id, task := spawn.payload.subtaskId, spawn.taskId;
    var start := Frame(Some(spawn.seqNo), Some(task), spawn.occurredAt,
                       SubtaskStarted(id, spawn.payload.agentName, spawn.payload.goal));
    var step := Frame(None, Some(task), None,
                      ToolCall(call.payload.callId, call.payload.toolName, call.payload.args, Some(id)));
    var undo := Frame(Some(rewind.seqNo), Some(task), rewind.occurredAt, Rewind(rewind.payload.targetSeq));
    ReplaysRewound(spawn, call, rewind, start, step, undo);
    hide *;
    FoldsThree(start, step, undo);
    FoldsRewound(start, step, undo);
    FoldsOne(FoldEvent(FoldEvent(FoldEvent(INITIAL, start), step), undo), step);
  }

  lemma FoldsRewound(start: Frame, step: Frame, undo: Frame)
    requires start.event.SubtaskStarted? && step.event.ToolCall? && undo.event.Rewind?
    requires IsDurable(start) && !IsDurable(step) && IsDurable(undo) && ScopeOf(undo) == ScopeOf(start)
    requires undo.event.targetSeq < start.seqNo.value < undo.seqNo.value && step.event.ofSubtask.Some?
    ensures var after := FoldEvent(FoldEvent(FoldEvent(INITIAL, start), step), undo);
            && after.items == []
            && FoldEvent(after, step).items
               == [StepItem(-2, step.task, step.ts, step.event.callId, step.event.toolName, step.event.args,
                            StepRunning, None, None, step.event.ofSubtask)]
  {
    hide FoldEvent;
    ShowsCard(start);
    KeysCard(start);
    var s1 := FoldEvent(INITIAL, start);
    AddsStep(s1, step);
    var s2 := FoldEvent(s1, step);
    UndoesBoth(s2, undo);
    AddsStep(FoldEvent(s2, undo), step);
  }

  lemma ReplaysRewound(spawn: Envelope, call: Envelope, rewind: Envelope, start: Frame, step: Frame, undo: Frame)
    requires spawn.payload.SubtaskSpawned? && spawn.payload.subtaskId != "" && call.payload.ToolCallStarted?
    requires rewind.payload.TaskRewound? && rewind.taskId == spawn.taskId
    requires start == Frame(Some(spawn.seqNo), Some(spawn.taskId), spawn.occurredAt,
                            SubtaskStarted(spawn.payload.subtaskId, spawn.payload.agentName, spawn.payload.goal))
    requires step == Frame(None, Some(spawn.taskId), None,
                           ToolCall(call.payload.callId, call.payload.toolName, call.payload.args,
                                    Some(spawn.payload.subtaskId)))
    requires undo == Frame(Some(rewind.seqNo), Some(spawn.taskId), rewind.occurredAt,
                           Rewind(rewind.payload.targetSeq))
    ensures var id, own := spawn.payload.subtaskId, [spawn] + [rewind];
            && SubtaskFrames([call], id, spawn.taskId) == [step]
            && ReplayFrames(spawn.taskId, own, map[id := [call]], None, None) == [start] + [step] + [undo]
            && Overlaps([step], spawn.taskId, own, map[id := [call]])
  {
    var id, task := spawn.payload.subtaskId, spawn.taskId;
    var subtasks := map[id := [call]];
    var own := [spawn] + [rewind];
    assert [call][..0] == [] && SubtaskFrames([], id, task) == [];
    assert TranslateSubtask(call, id, task) == [step];
    assert SubtaskFrames([call], id, task) == [] + [step];
    assert Translate(spawn) == [start] && Translate(rewind) == [undo];
    hide Translate;
    hide TranslateSubtask;
    hide SubtaskFrames;
    assert Spliced(spawn, subtasks, task, true) == [start] + [step];
    assert Spliced(rewind, subtasks, task, true) == [undo] + [];
    hide Spliced;
    assert [spawn][..0] == [] && own[..1] == [spawn] && OwnFrames([], subtasks, task, true) == [];
    assert OwnFrames([spawn], subtasks, task, true) == [] + ([start] + [step]);
    assert OwnFrames(own, subtasks, task, true) == ([start] + [step]) + ([undo] + []);
    FullReplay(task, own, subtasks, None, None);
    assert [] + (([start] + [step]) + ([undo] + [])) == [start] + [step] + [undo];
  }

  lemma FoldsThree(d: Frame, e: Frame, f: Frame)
    ensures FoldEvents(INITIAL, [d] + [e] + [f]) == FoldEvent(FoldEvent(FoldEvent(INITIAL, d), e), f)
  {
    FoldsTwo(d, e);
    FoldEventsConcat(INITIAL, [d] + [e], [f]);
    FoldsOne(FoldEvents(INITIAL, [d] + [e]), f);
    hide FoldEvent;
    hide FoldEvents;
  }

  lemma KeysCard(start: Frame)
    requires start.event.SubtaskStarted? && IsDurable(start)
    ensures forall it :: it in FoldEvent(INITIAL, start).items ==> it.key == start.seqNo.value && it.SubtaskItem?
    ensures FoldEvent(INITIAL, start).cursors == map[ScopeOf(start) := start.seqNo.value]
  {
  }

  lemma AddsStep(s: State, step: Frame)
    requires step.event.ToolCall? && !IsDurable(step) && forall it :: it in s.items ==> !it.StepItem?
    ensures var after := FoldEvent(s, step);
            && after.nextKey == s.nextKey - 1 && after.cursors == s.cursors
            && after.items == s.items + [StepItem(s.nextKey, step.task, step.ts, step.event.callId,
                                                  step.event.toolName, step.event.args, StepRunning, None, None,
                                                  step.event.ofSubtask)]
  {
    assert forall i :: 0 <= i < |s.items| ==> s.items[i] in s.items && !IsStepOf(step.event.callId)(s.items[i]);
  }

  lemma UndoesBoth(s: State, undo: Frame)
    requires undo.event.Rewind? && IsDurable(undo) && IsFresh(s, undo)
    requires forall it :: it in s.items ==>
               (it.SubtaskItem? && it.key >= 0 && it.key > undo.event.targetSeq)
               || (it.StepItem? && it.key < 0 && it.ofSubtask.Some?)
    ensures FoldEvent(s, undo).items == [] && FoldEvent(s, undo).nextKey == s.nextKey
  {
    var live := LiveCards(s.items, undo.event.targetSeq);
    TruncateIsFilter(s.items, undo.event.targetSeq);
    FilterNone(Survives(live, undo.event.targetSeq), s.items);
    hide Truncate;
  }
}
