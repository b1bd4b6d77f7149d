/** What the transcript shows of one tool call, along a whole run of the reducer. */
module CallHistory {
  import opened Collections
  import opened UIEvents
  import opened Conversation
  import opened FoldLaws

  /** One step per call. */
  predicate UniqueCalls(items: seq<Item>) {
    forall i, j :: 0 <= i < j < |items| && items[i].StepItem? && items[j].StepItem? ==>
      items[i].callId != items[j].callId
  }

  predicate StepIn(it: Item, callId: string, status: StepStatus) {
    it.StepItem? && it.callId == callId && it.stepStatus == status
  }

  /** The list shows the call with this status, or has no step of it. */
  ghost predicate Shows(items: seq<Item>, callId: string, status: Option<StepStatus>) {
    if status.None? then forall i :: 0 <= i < |items| && items[i].StepItem? ==> items[i].callId != callId
    else exists i :: 0 <= i < |items| && StepIn(items[i], callId, status.value)
  }

  /** What one event makes of a call's status; a rewind may take the call away, but not change it. */
  function Moved(before: Option<StepStatus>, callId: string, e: Event): Option<StepStatus> {
    match e
    case ToolCall(id, _, _, _) => if id == callId && before.None? then Some(StepRunning) else before
    case ToolResult(id, success, _, _) =>
      if id == callId && before == Some(StepRunning) then Some(if success then StepSucceeded else StepFailed)
      else before
    case TurnFinished(status, _) =>
      if before == Some(StepRunning) && status == TurnCancelled then Some(StepCancelled)
      else if before == Some(StepRunning) && status == TurnFailedForGood then Some(StepFailed)
      else before
    case _ => before
  }

  /** A call's own history: opened by its first call, closed once, by the first result or failing end of a
      turn that finds it running, and opened again only after a rewind has taken its step away. */
  ghost function StatusOf(s: State, frames: seq<Frame>, callId: string): Option<StepStatus> {
    if frames == [] then None
    else
      var front, f := frames[..|frames| - 1], frames[|frames| - 1];
      var before := StatusOf(s, front, callId);
      if !IsFresh(FoldEvents(s, front), f) then before
      else if f.event.Rewind? && Shows(FoldEvents(s, frames).items, callId, None) then None
      else Moved(before, callId, f.event)
  }

  lemma CallMoves(s: State, f: Frame, callId: string, before: Option<StepStatus>)
    requires IsFresh(s, f) && f.event.ToolCall? && UniqueCalls(s.items) && Shows(s.items, callId, before)
    ensures var after := FoldEvent(s, f).items;
            UniqueCalls(after) && Shows(after, callId, Moved(before, callId, f.event))
  {
    CallOpensOneStep(s, f);
    var after := FoldEvent(s, f).items;
    hide FoldEvent;
    if exists i :: 0 <= i < |s.items| && s.items[i].StepItem? && s.items[i].callId == f.event.callId {
      assert after == s.items;
    } else {
      assert |after| == |s.items| + 1 && forall i :: 0 <= i < |s.items| ==> after[i] == s.items[i];
      assert StepIn(after[|s.items|], f.event.callId, StepRunning);
      if before.Some? {
        var i :| 0 <= i < |s.items| && StepIn(s.items[i], callId, before.value);
        assert StepIn(after[i], callId, before.value);
      }
    }
  }

  lemma ResultMoves(s: State, f: Frame, callId: string, before: Option<StepStatus>)
    requires IsFresh(s, f) && f.event.ToolResult? && UniqueCalls(s.items) && Shows(s.items, callId, before)
    ensures var after := FoldEvent(s, f).items;
            UniqueCalls(after) && Shows(after, callId, Moved(before, callId, f.event))
  {
    hide FoldEvent;
    hide FindLast;
    var at := FindLast(s.items, IsRunningStepOf(f.event.callId));
    assert LastAt(s.items, at, (it: Item) => RunningStep(it, f.event.callId));
    ResultClosesItsStep(s, f, at);
    var after := FoldEvent(s, f).items;
    if before.Some? {
      var i :| 0 <= i < |s.items| && StepIn(s.items[i], callId, before.value);
      if f.event.callId == callId && before == Some(StepRunning) {
        assert RunningStep(s.items[i], callId) && i == at;
      }
      assert StepIn(after[i], callId, Moved(before, callId, f.event).value);
    }
  }

  /** The end of a turn touches the status of running steps alone. */
  lemma EndClosesSteps(status: TurnStatus, items: seq<Item>, after: seq<Item>)
    requires |after| == |items| && forall i :: 0 <= i < |items| ==> ClosedBy(status, items[i], after[i])
    ensures forall i :: 0 <= i < |items| ==>
              && (after[i].StepItem? <==> items[i].StepItem?)
              && (items[i].StepItem? ==>
                    && after[i].callId == items[i].callId
                    && Some(after[i].stepStatus)
                       == Moved(Some(items[i].stepStatus), items[i].callId, TurnFinished(status, None)))
  {
  }

  lemma EndKeepsUnique(items: seq<Item>, after: seq<Item>)
    requires UniqueCalls(items) && |after| == |items|
    requires forall i :: 0 <= i < |items| ==>
               && (after[i].StepItem? <==> items[i].StepItem?)
               && (items[i].StepItem? ==> after[i].callId == items[i].callId)
    ensures UniqueCalls(after)
  {
  }

  lemma EndMoves(s: State, f: Frame, callId: string, before: Option<StepStatus>)
    requires IsFresh(s, f) && f.event.TurnFinished? && UniqueCalls(s.items) && Shows(s.items, callId, before)
    ensures var after := FoldEvent(s, f).items;
            UniqueCalls(after) && Shows(after, callId, Moved(before, callId, f.event))
  {
    hide FoldEvent;
    EndOfTurnCloses(s, f);
    var after := FoldEvent(s, f).items;
    hide Noted;
    hide ClosedBy;
    hide LowestCursor;
    EndClosesSteps(f.event.status, s.items, after);
    EndKeepsUnique(s.items, after);
    hide UniqueCalls;
    if before.Some? {
      var i :| 0 <= i < |s.items| && StepIn(s.items[i], callId, before.value);
      assert StepIn(after[i], callId, Moved(before, callId, f.event).value);
    }
  }

  lemma {:induction false} FilterKeepsUnique(p: Item -> bool, items: seq<Item>)
    requires UniqueCalls(items)
    ensures UniqueCalls(Filter(p, items))
  {
    if items != [] {
      var front, last := items[..|items| - 1], items[|items| - 1];
      FilterKeepsUnique(p, front);
      var kept := Filter(p, front);
      forall i | 0 <= i < |kept| && kept[i].StepItem? && last.StepItem? ensures kept[i].callId != last.callId {
        assert kept[i] in front;
      }
    }
  }

  lemma RewindTruncates(s: State, f: Frame)
    requires IsFresh(s, f) && f.event.Rewind?
    ensures FoldEvent(s, f).items == Truncate(s.items, f.event.targetSeq)
  {
    hide Truncate;
  }

  lemma RewindMoves(s: State, f: Frame, callId: string, before: Option<StepStatus>)
    requires IsFresh(s, f) && f.event.Rewind? && UniqueCalls(s.items) && Shows(s.items, callId, before)
    ensures var after := FoldEvent(s, f).items;
            UniqueCalls(after) && (Shows(after, callId, None) || Shows(after, callId, before))
  {
    hide FoldEvent;
    hide Filter;
    hide Shows;
    RewindTruncates(s, f);
    var after := FoldEvent(s, f).items;
    var survivors := Filter(AtOrBefore(f.event.targetSeq), s.items);
    var kept := Filter(Anchored(CardIds(survivors)), survivors);
    FilterKeepsUnique(AtOrBefore(f.event.targetSeq), s.items);
    FilterKeepsUnique(Anchored(CardIds(survivors)), survivors);
    FilterKeepsUnique(Acknowledged(), kept);
    SameCall(s.items, after, callId, before);
  }

  /** What is left of a list shows the call as the list did, or not at all. */
  lemma SameCall(items: seq<Item>, after: seq<Item>, callId: string, before: Option<StepStatus>)
    requires (forall it :: it in after ==> it in items) && UniqueCalls(items) && Shows(items, callId, before)
    ensures Shows(after, callId, None) || Shows(after, callId, before)
  {
    if !Shows(after, callId, None) {
      var k :| 0 <= k < |after| && after[k].StepItem? && after[k].callId == callId;
      assert after[k] in items;
      var i :| 0 <= i < |items| && items[i] == after[k];
      var j :| 0 <= j < |items| && StepIn(items[j], callId, before.value);
      assert i == j && StepIn(after[k], callId, before.value);
    }
  }

  /** The events that are about no call. */
  predicate LeavesCalls(e: Event) {
    !e.ToolCall? && !e.ToolResult? && !e.TurnFinished? && !e.Rewind?
  }

  predicate SameSteps(items: seq<Item>, after: seq<Item>) {
    && |items| <= |after|
    && (forall i :: 0 <= i < |items| ==> after[i] == items[i] || (!after[i].StepItem? && !items[i].StepItem?))
    && (forall i :: |items| <= i < |after| ==> !after[i].StepItem?)
  }

  lemma OthersLeaveSteps(s: State, f: Frame)
    requires LeavesCalls(f.event)
    ensures SameSteps(s.items, Edited(s.items, EditOf(s.items, s.nextKey, f)))
  {
    hide FindLast;
    hide KeyFor;
  }

  lemma OtherMoves(s: State, f: Frame, callId: string, before: Option<StepStatus>)
    requires IsFresh(s, f) && LeavesCalls(f.event) && UniqueCalls(s.items) && Shows(s.items, callId, before)
    ensures var after := FoldEvent(s, f).items;
            UniqueCalls(after) && Shows(after, callId, Moved(before, callId, f.event))
  {
    var after := FoldEvent(s, f).items;
    assert after == Edited(s.items, EditOf(s.items, s.nextKey, f));
    OthersLeaveSteps(s, f);
    hide FoldEvent;
    hide EditOf;
    hide Edited;
    if before.Some? {
      var i :| 0 <= i < |s.items| && StepIn(s.items[i], callId, before.value);
      assert StepIn(after[i], callId, before.value);
    }
  }

  lemma FrameMoves(s: State, f: Frame, callId: string, before: Option<StepStatus>)
    requires IsFresh(s, f) && UniqueCalls(s.items) && Shows(s.items, callId, before)
    ensures var after := FoldEvent(s, f).items;
            && UniqueCalls(after)
            && (if f.event.Rewind? then Shows(after, callId, None) || Shows(after, callId, before)
                else Shows(after, callId, Moved(before, callId, f.event)))
  {
    hide *;
    if f.event.ToolCall? { CallMoves(s, f, callId, before); }
    else if f.event.ToolResult? { ResultMoves(s, f, callId, before); }
    else if f.event.TurnFinished? { EndMoves(s, f, callId, before); }
    else if f.event.Rewind? { RewindMoves(s, f, callId, before); }
    else {
      OtherEvent(f.event);
      OtherMoves(s, f, callId, before);
    }
  }

  lemma OtherEvent(e: Event)
    requires !e.ToolCall? && !e.ToolResult? && !e.TurnFinished? && !e.Rewind?
    ensures LeavesCalls(e)
  {
  }

  lemma StaleMoves(s: State, f: Frame)
    requires !IsFresh(s, f)
    ensures FoldEvent(s, f) == s
  {
  }

  /** Along every run, from an empty conversation, each call has at most one step, and the step shows what
      the call's own history says. */
  lemma {:induction false} StepsFollowTheirCalls(frames: seq<Frame>, callId: string)
    ensures var items := FoldEvents(INITIAL, frames).items;
            UniqueCalls(items) && Shows(items, callId, StatusOf(INITIAL, frames, callId))
  {
    hide FoldEvent;
    hide IsFresh;
    hide Shows;
    hide UniqueCalls;
    if frames == [] {
      NoCalls(callId);
    } else {
      var front, f := frames[..|frames| - 1], frames[|frames| - 1];
      var mid, before := FoldEvents(INITIAL, front), StatusOf(INITIAL, front, callId);
      StepsFollowTheirCalls(front, callId);
      if IsFresh(mid, f) {
        FrameMoves(mid, f, callId, before);
        if f.event.Rewind? { RewindKeepsStatus(before, callId, f.event); }
      } else {
        StaleMoves(mid, f);
      }
    }
  }

  lemma RewindKeepsStatus(before: Option<StepStatus>, callId: string, e: Event)
    requires e.Rewind?
    ensures Moved(before, callId, e) == before
  {
  }

  lemma NoCalls(callId: string)
    ensures UniqueCalls(INITIAL.items) && Shows(INITIAL.items, callId, None)
  {
  }
}
