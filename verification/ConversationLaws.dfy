/** Laws of the client fold: rewinding undoes a span, deltas do not interfere. */
module ConversationLaws {
  import opened Collections
  import opened UIEvents
  import opened Conversation

  // ---------------------------------------------------------------------------
  // Truncation
  // ---------------------------------------------------------------------------

  /** What truncation at `target` keeps: no later item, no orphaned synthetic step, no unacknowledged send. */
  ghost predicate Kept(items: seq<Item>, target: int) {
    forall it :: it in items ==>
      AtOrBefore(target)(it) && Anchored(CardIds(items))(it) && Acknowledged()(it)
  }

  lemma FilterFixpoint(p: Item -> bool, items: seq<Item>)
    ensures Filter(p, items) == items <==> forall it :: it in items ==> p(it)
  {
    if forall it :: it in items ==> p(it) {
      FilterAll(p, items);
    }
  }

  lemma {:induction false} FilterSameLength(p: Item -> bool, items: seq<Item>)
    requires |Filter(p, items)| == |items|
    ensures Filter(p, items) == items
  {
    if items != [] {
      assert items == items[..|items| - 1] + [items[|items| - 1]];
      FilterSameLength(p, items[..|items| - 1]);
    }
  }

  /** Truncation leaves a list alone exactly when it holds nothing to drop. */
  lemma TruncateFixpoint(items: seq<Item>, target: int)
    ensures Truncate(items, target) == items <==> Kept(items, target)
  {
    var survivors := Filter(AtOrBefore(target), items);
    var kept := Filter(Anchored(CardIds(survivors)), survivors);
    FilterFixpoint(AtOrBefore(target), items);
    FilterFixpoint(Anchored(CardIds(items)), items);
    FilterFixpoint(Acknowledged(), items);
    if Truncate(items, target) == items {
      FilterSameLength(AtOrBefore(target), items);
      FilterSameLength(Anchored(CardIds(survivors)), survivors);
    }
  }

  /** The ids of the subtask cards a truncation at `target` leaves standing. */
  function LiveCards(items: seq<Item>, target: int): set<string> {
    CardIds(Filter(AtOrBefore(target), items))
  }

  function Survives(live: set<string>, target: int): Item -> bool {
    (it: Item) => AtOrBefore(target)(it) && Anchored(live)(it) && Acknowledged()(it)
  }

  function StaysLive(live: set<string>, target: int): Item -> bool {
    (it: Item) => AtOrBefore(target)(it) && Anchored(live)(it)
  }

  /** The three rules are one filter over the original list. */
  lemma TruncateIsFilter(items: seq<Item>, target: int)
    ensures Truncate(items, target) == Filter(Survives(LiveCards(items, target), target), items)
  {
    var live := LiveCards(items, target);
    FilterFilter(AtOrBefore(target), Anchored(live), StaysLive(live, target), items);
    FilterFilter(StaysLive(live, target), Acknowledged(), Survives(live, target), items);
  }

  /** Two truncations are one, at the earlier boundary; in particular truncating twice changes nothing. */
  lemma TruncateCompose(items: seq<Item>, a: int, b: int)
    ensures Truncate(Truncate(items, a), b) == Truncate(items, if a < b then a else b)
  {
    var c := if a < b then a else b;
    var once := Truncate(items, a);
    TruncateIsFilter(items, a);
    TruncateIsFilter(once, b);
    TruncateIsFilter(items, c);
    assert LiveCards(once, b) == LiveCards(items, c) by {
      forall it | it in items && it.SubtaskItem? && AtOrBefore(c)(it)
        ensures it in Filter(AtOrBefore(b), once)
      {
        assert it in Filter(AtOrBefore(a), items);
        assert it in once;
      }
    }
    assert LiveCards(items, c) <= LiveCards(items, a);
    FilterFilter(Survives(LiveCards(items, a), a), Survives(LiveCards(once, b), b), Survives(LiveCards(items, c), c),
                 items);
  }

  // ---------------------------------------------------------------------------
  // The rewind law
  // ---------------------------------------------------------------------------

  /** What reaches the client between the prefix and the rewind. */
  datatype Action = Received(frame: Frame) | Echoed(content: string, images: seq<string>)

  function Apply(s: State, a: Action): State {
    match a
    case Received(f) => FoldEvent(s, f)
    case Echoed(content, images) => AppendOptimisticUser(s, content, images)
  }

  function ApplyAll(s: State, actions: seq<Action>): State {
    if actions == [] then s else Apply(ApplyAll(s, actions[..|actions| - 1]), actions[|actions| - 1])
  }

  /** A resting conversation whose durable seqs are at most `g`. */
  ghost predicate Settled(items: seq<Item>, g: int) {
    && Kept(items, g)
    && forall it :: it in items ==>
         && !(it.StepItem? && it.stepStatus == StepRunning)
         && !(it.SubtaskItem? && it.cardStatus == SubtaskRunning)
         && !(it.QuestionItem? && !it.answered && !it.withdrawn)
  }

  /** An item a truncation at `g` is bound to drop, given the cards of the prefix. */
  predicate Doomed(it: Item, g: int, cards: set<string>) {
    || !AtOrBefore(g)(it)
    || (it.UserItem? && it.pending)
    || (it.key < 0 && it.StepItem? && it.ofSubtask.Some? && it.ofSubtask.value !in cards)
  }

  /** Whether a rewind to `g` undoes one frame that reached `s`, for a conversation that stood at
      `prefix`: one arm for every event. What a frame appends goes only if its seq is past the boundary,
      or if it is a synthetic step of a subtask the prefix has no card of. */
  predicate Undone(s: State, prefix: seq<Item>, g: int, f: Frame) {
    !IsFresh(s, f)
    || var late := f.seqNo.Some? && f.seqNo.value > g;
       match f.event
       case UserMessage(_, _) => late
       case AssistantText(_) => late
       case ThinkingText(_) => late
       case RecallText(_) => late
       case MemoryOp(_, _, _) => late
       case SkillActivated(_) => late
       case QuestionAsked(_, _, _) => late
       case Compaction(_) => late
       case ErrorNotice(_) => late
       case ToolCall(callId, _, _, ofSubtask) =>
         || late
         || Exists(s.items, IsStepOf(callId))
         || (f.seqNo.None? && ofSubtask.Some? && ofSubtask.value !in CardIds(prefix))
       case SubtaskStarted(id, _, _) => late || Exists(s.items, IsCardOf(id))
       case SubtaskFinished(id, _, _) => late || Exists(s.items, IsRunningCardOf(id))
       case TodoUpdate(todos) =>
         var index := FindLast(s.items, IsTodos());
         if index > FindLast(s.items, IsUser()) then index >= |prefix| || s.items[index].todos == todos else late
       case QuestionAnswered(id) =>
         var index := FindLast(s.items, IsQuestionOf(id));
         index < 0 || index >= |prefix| || s.items[index].answered
       case QuestionWithdrawn(id) =>
         var index := FindLast(s.items, IsQuestionOf(id));
         index < 0 || index >= |prefix| || s.items[index].withdrawn
       case Rewind(target) => target >= g || forall it :: it in prefix ==> AtOrBefore(target)(it)
       case _ => true
  }

  ghost predicate UndoneAll(s: State, g: int, actions: seq<Action>) {
    forall k :: 0 <= k < |actions| && actions[k].Received? ==>
      Undone(ApplyAll(s, actions[..k]), s.items, g, actions[k].frame)
  }

  lemma UndoneExtends(s: State, g: int, actions: seq<Action>, f: Frame)
    requires UndoneAll(s, g, actions)
    requires Undone(ApplyAll(s, actions), s.items, g, f)
    ensures UndoneAll(s, g, actions + [Received(f)])
    ensures ApplyAll(s, actions + [Received(f)]) == FoldEvent(ApplyAll(s, actions), f)
  {
    hide FoldEvent;
    hide Undone;
    var all := actions + [Received(f)];
    assert all[..|actions|] == actions;
    forall k | 0 <= k < |actions| ensures all[..k] == actions[..k] {}
  }

  /** The prefix is intact and everything after it is doomed. */
  ghost predicate OnTopOf(prefix: seq<Item>, items: seq<Item>, g: int) {
    && prefix <= items
    && forall i :: |prefix| <= i < |items| ==> Doomed(items[i], g, CardIds(prefix))
  }

  /** A kept prefix survives any truncation at or after its boundary. */
  lemma PrefixSurvives(prefix: seq<Item>, tail: seq<Item>, g: int, target: int)
    requires Kept(prefix, g) && target >= g
    ensures var p := Survives(LiveCards(prefix + tail, target), target);
            Truncate(prefix + tail, target) == prefix + Filter(p, tail)
  {
    var items := prefix + tail;
    var live := LiveCards(items, target);
    assert CardIds(prefix) <= live by {
      forall it | it in prefix && it.SubtaskItem?
        ensures it in Filter(AtOrBefore(target), items)
      {
        assert it in items && AtOrBefore(g)(it);
      }
    }
    forall it | it in prefix ensures Survives(live, target)(it) {
      assert AtOrBefore(g)(it) && Anchored(CardIds(prefix))(it) && Acknowledged()(it);
    }
    TruncateIsFilter(items, target);
    FilterConcat(Survives(live, target), prefix, tail);
    FilterAll(Survives(live, target), prefix);
  }

  lemma TruncateAbove(prefix: seq<Item>, items: seq<Item>, g: int, target: int)
    requires Kept(prefix, g) && OnTopOf(prefix, items, g) && target >= g
    ensures OnTopOf(prefix, Truncate(items, target), g)
  {
    var tail := items[|prefix|..];
    assert items == prefix + tail;
    PrefixSurvives(prefix, tail, g, target);
    var kept := Filter(Survives(LiveCards(items, target), target), tail);
    forall i | |prefix| <= i < |prefix + kept|
      ensures Doomed((prefix + kept)[i], g, CardIds(prefix))
    {
      var it := kept[i - |prefix|];
      assert it in kept;
      var j :| 0 <= j < |tail| && tail[j] == it;
      assert items[|prefix| + j] == it;
    }
  }

  /** At the boundary itself, nothing above the prefix survives. */
  lemma TruncateToPrefix(prefix: seq<Item>, items: seq<Item>, g: int)
    requires Kept(prefix, g) && OnTopOf(prefix, items, g)
    ensures Truncate(items, g) == prefix
  {
    var tail := items[|prefix|..];
    assert items == prefix + tail;
    assert forall it :: it in tail ==> Doomed(it, g, CardIds(prefix));
    PrefixSurvives(prefix, tail, g, g);
    var live := LiveCards(items, g);
    assert live <= CardIds(prefix) by {
      forall it | it in Filter(AtOrBefore(g), items) && it.SubtaskItem?
        ensures it in prefix
      {
        assert it in prefix || it in tail;
      }
    }
    FilterNone(Survives(live, g), tail);
  }

  /** An item that is not doomed outlives the truncation. */
  lemma OutlivesTruncation(prefix: seq<Item>, items: seq<Item>, g: int, at: nat)
    requires Kept(prefix, g) && prefix <= items && |prefix| <= at < |items|
    requires !Doomed(items[at], g, CardIds(prefix))
    ensures Truncate(items, g) != prefix
  {
    var tail := items[|prefix|..];
    var p := Survives(LiveCards(items, g), g);
    assert items == prefix + tail && tail[at - |prefix|] == items[at];
    PrefixSurvives(prefix, tail, g, g);
    assert CardIds(prefix) <= LiveCards(items, g) by {
      forall it | it in prefix && it.SubtaskItem? ensures it in Filter(AtOrBefore(g), items) {
        assert it in items && AtOrBefore(g)(it);
      }
    }
    assert items[at] in Filter(p, tail);
  }

  // ---------------------------------------------------------------------------
  // One frame on top of a settled conversation
  // ---------------------------------------------------------------------------

  /** Rewriting an item's status neither dooms nor saves it. */
  lemma RewritesKeepDoom(items: seq<Item>, nextKey: int, f: Frame, g: int, cards: set<string>)
    requires EditOf(items, nextKey, f).Replaced? && !f.event.UserMessage?
    ensures EditOf(items, nextKey, f).index < |items|
    ensures Doomed(EditOf(items, nextKey, f).item, g, cards) == Doomed(items[EditOf(items, nextKey, f).index], g, cards)
  {
    hide FindLast;
  }

  /** A settled prefix has nothing open to rewrite, except its checklist and its settled questions. */
  lemma RewritesOfPrefix(prefix: seq<Item>, s: State, g: int, f: Frame)
    requires Settled(prefix, g) && prefix <= s.items
    requires EditOf(s.items, s.nextKey, f).Replaced?
    ensures var e := EditOf(s.items, s.nextKey, f);
            && e.index < |s.items|
            && (e.index < |prefix| ==> f.event.TodoUpdate? || f.event.QuestionAnswered? || f.event.QuestionWithdrawn?)
  {
    assert forall i :: 0 <= i < |prefix| ==> s.items[i] == prefix[i] && prefix[i] in prefix;
    hide FindLast;
  }

  /** An undone rewrite of the prefix writes back what was there. */
  lemma UndoneRewrites(prefix: seq<Item>, s: State, g: int, f: Frame)
    requires EditOf(s.items, s.nextKey, f).Replaced? && IsFresh(s, f)
    requires f.event.TodoUpdate? || f.event.QuestionAnswered? || f.event.QuestionWithdrawn?
    ensures var e := EditOf(s.items, s.nextKey, f);
            && e.index < |s.items|
            && (Undone(s, prefix, g, f) <==> e.index >= |prefix| || e.item == s.items[e.index])
            && e.item.key == s.items[e.index].key
            && !e.item.SubtaskItem? && !e.item.StepItem? && !e.item.UserItem?
            && !s.items[e.index].SubtaskItem? && !s.items[e.index].StepItem? && !s.items[e.index].UserItem?
  {
    hide FindLast;
  }

  /** What kind of item an append brings, and under which key. */
  lemma AppendsItem(s: State, f: Frame)
    requires var e := EditOf(s.items, s.nextKey, f); e.Appended? || (e.Replaced? && f.event.UserMessage?)
    ensures var it := EditOf(s.items, s.nextKey, f).item;
            && it.key == KeyFor(s.nextKey, f)
            && !(it.UserItem? && it.pending)
            && (it.StepItem? <==> f.event.ToolCall?)
            && (it.StepItem? ==> it.ofSubtask == f.event.ofSubtask)
  {
    hide FindLast;
    hide KeyFor;
  }

  /** A frame that appends finds nothing of its own to rewrite. */
  lemma AppendsUnlessFound(s: State, prefix: seq<Item>, g: int, f: Frame)
    requires IsFresh(s, f)
    requires var e := EditOf(s.items, s.nextKey, f); e.Appended? || (e.Replaced? && f.event.UserMessage?)
    ensures Undone(s, prefix, g, f)
       <==> (f.seqNo.Some? && f.seqNo.value > g)
            || (f.event.ToolCall? && f.seqNo.None? && f.event.ofSubtask.Some?
                && f.event.ofSubtask.value !in CardIds(prefix))
  {
    hide FindLast;
    hide KeyFor;
    hide CardIds;
  }

  /** What a frame appends, or puts in place of an echo, is doomed exactly when the frame is undone. */
  lemma AppendsAreDoomed(s: State, prefix: seq<Item>, g: int, f: Frame)
    requires IsFresh(s, f) && s.nextKey < 0
    requires var e := EditOf(s.items, s.nextKey, f); e.Appended? || (e.Replaced? && f.event.UserMessage?)
    ensures Undone(s, prefix, g, f) <==> Doomed(EditOf(s.items, s.nextKey, f).item, g, CardIds(prefix))
  {
    AppendsItem(s, f);
    AppendsUnlessFound(s, prefix, g, f);
    hide EditOf;
    hide Undone;
    hide CardIds;
  }

  /** Frames that neither append nor rewrite are undone, but for a rewind past the prefix. */
  lemma OtherEditsAreUndone(s: State, prefix: seq<Item>, g: int, f: Frame)
    requires IsFresh(s, f)
    requires var e := EditOf(s.items, s.nextKey, f); e.Unchanged? || e.Closed?
    ensures Undone(s, prefix, g, f)
  {
    hide FindLast;
  }

  lemma RewindPast(prefix: seq<Item>, items: seq<Item>, g: int, target: int)
    requires Kept(prefix, g) && OnTopOf(prefix, items, g) && target < g
    ensures (forall it :: it in prefix ==> AtOrBefore(target)(it)) ==> Truncate(items, target) == prefix
    ensures Truncate(items, target) == prefix ==> forall it :: it in prefix ==> AtOrBefore(target)(it)
  {
    TruncateToPrefix(prefix, items, g);
    TruncateCompose(items, g, target);
    TruncateFixpoint(prefix, target);
  }

  /** An undone frame leaves the prefix intact and everything after it doomed. */
  lemma FrameStaysOnTop(prefix: seq<Item>, s: State, g: int, f: Frame)
    requires Settled(prefix, g) && OnTopOf(prefix, s.items, g) && s.nextKey < 0
    requires Undone(s, prefix, g, f)
    ensures OnTopOf(prefix, FoldEvent(s, f).items, g) && FoldEvent(s, f).nextKey < 0
  {
    if IsFresh(s, f) {
      var e := EditOf(s.items, s.nextKey, f);
      assert FoldEvent(s, f).items == Edited(s.items, e);
      EditStaysOnTop(prefix, s, g, f, e);
    }
  }

  lemma EditStaysOnTop(prefix: seq<Item>, s: State, g: int, f: Frame, e: Edit)
    requires Settled(prefix, g) && OnTopOf(prefix, s.items, g) && s.nextKey < 0
    requires Undone(s, prefix, g, f) && IsFresh(s, f)
    requires e == EditOf(s.items, s.nextKey, f)
    ensures OnTopOf(prefix, Edited(s.items, e), g)
  {
    match e {
      case Unchanged =>
      case Appended(item) => AppendsAreDoomed(s, prefix, g, f);
      case Replaced(index, item) =>
        RewritesOfPrefix(prefix, s, g, f);
        ReplacedStaysOnTop(prefix, s, g, f);
      case Closed(status) => ClosedStaysOnTop(prefix, s.items, g, status);
      case Truncated(target) =>
        RewindEdit(s, f);
        if target >= g { TruncateAbove(prefix, s.items, g, target); } else { RewindPast(prefix, s.items, g, target); }
    }
  }

  lemma RewindEdit(s: State, f: Frame)
    ensures var e := EditOf(s.items, s.nextKey, f); e.Truncated? ==> f.event == Rewind(e.target)
  {
    hide FindLast;
  }

  lemma ReplacedStaysOnTop(prefix: seq<Item>, s: State, g: int, f: Frame)
    requires Settled(prefix, g) && OnTopOf(prefix, s.items, g) && s.nextKey < 0
    requires Undone(s, prefix, g, f) && IsFresh(s, f) && EditOf(s.items, s.nextKey, f).Replaced?
    ensures OnTopOf(prefix, Edited(s.items, EditOf(s.items, s.nextKey, f)), g)
  {
    var e := EditOf(s.items, s.nextKey, f);
    RewritesOfPrefix(prefix, s, g, f);
    if f.event.UserMessage? {
      AppendsAreDoomed(s, prefix, g, f);
    } else if e.index < |prefix| {
      UndoneRewrites(prefix, s, g, f);
      assert s.items[e.index := e.item] == s.items;
    } else {
      RewritesKeepDoom(s.items, s.nextKey, f, g, CardIds(prefix));
    }
    hide EditOf;
    hide Undone;
    hide Doomed;
  }

  lemma ClosedStaysOnTop(prefix: seq<Item>, items: seq<Item>, g: int, status: TurnStatus)
    requires Settled(prefix, g) && OnTopOf(prefix, items, g)
    ensures OnTopOf(prefix, MapItems(items, ForceClose(status)), g)
  {
    var closed := MapItems(items, ForceClose(status));
    forall i | 0 <= i < |prefix| ensures closed[i] == prefix[i] {
      assert prefix[i] in prefix && items[i] == prefix[i];
    }
  }

  /** A frame that is not undone leaves a trace that a rewind to the boundary does not remove. */
  lemma TraceOutlivesRewind(prefix: seq<Item>, s: State, g: int, f: Frame)
    requires Settled(prefix, g) && OnTopOf(prefix, s.items, g) && s.nextKey < 0
    requires !Undone(s, prefix, g, f)
    ensures Truncate(FoldEvent(s, f).items, g) != prefix
  {
    hide *;
    UndoneOnlyFresh(s, prefix, g, f);
    FoldEdits(s, f);
    EditOutlivesRewind(prefix, s, g, f, EditOf(s.items, s.nextKey, f));
  }

  lemma UndoneOnlyFresh(s: State, prefix: seq<Item>, g: int, f: Frame)
    requires !Undone(s, prefix, g, f)
    ensures IsFresh(s, f)
  {
    hide IsFresh;
  }

  lemma FoldEdits(s: State, f: Frame)
    requires IsFresh(s, f)
    ensures FoldEvent(s, f).items == Edited(s.items, EditOf(s.items, s.nextKey, f))
  {
    hide EditOf;
    hide Edited;
  }

  lemma EditOutlivesRewind(prefix: seq<Item>, s: State, g: int, f: Frame, e: Edit)
    requires Settled(prefix, g) && OnTopOf(prefix, s.items, g) && s.nextKey < 0
    requires !Undone(s, prefix, g, f) && IsFresh(s, f) && e == EditOf(s.items, s.nextKey, f)
    ensures Truncate(Edited(s.items, e), g) != prefix
  {
    hide EditOf;
    hide Truncate;
    hide IsFresh;
    if e.Unchanged? || e.Closed? {
      hide Undone;
      OtherEditsAreUndone(s, prefix, g, f);
      assert false;
    } else if e.Appended? {
      AppendsAreDoomed(s, prefix, g, f);
      hide Undone;
      OutlivesTruncation(prefix, s.items + [e.item], g, |s.items|);
    } else if e.Replaced? {
      hide Undone;
      ReplacedOutlivesRewind(prefix, s, g, f);
    } else {
      RewindEdit(s, f);
      TruncateCompose(s.items, e.target, g);
      RewindPast(prefix, s.items, g, e.target);
    }
  }

  lemma ReplacedOutlivesRewind(prefix: seq<Item>, s: State, g: int, f: Frame)
    requires Settled(prefix, g) && OnTopOf(prefix, s.items, g) && s.nextKey < 0
    requires !Undone(s, prefix, g, f) && EditOf(s.items, s.nextKey, f).Replaced?
    ensures Truncate(Edited(s.items, EditOf(s.items, s.nextKey, f)), g) != prefix
  {
    var e := EditOf(s.items, s.nextKey, f);
    var after := Edited(s.items, e);
    RewritesOfPrefix(prefix, s, g, f);
    if f.event.UserMessage? {
      AppendsAreDoomed(s, prefix, g, f);
      OutlivesTruncation(prefix, after, g, e.index);
    } else {
      RewritesAreUndone(s, prefix, g, f);
      UndoneRewrites(prefix, s, g, f);
      RewrittenPrefix(prefix, s.items, g, e.index, e.item);
    }
  }

  /** A step, card or message past the prefix is undone when it is rewritten. */
  lemma RewritesAreUndone(s: State, prefix: seq<Item>, g: int, f: Frame)
    requires IsFresh(s, f) && EditOf(s.items, s.nextKey, f).Replaced? && !f.event.UserMessage?
    ensures !Undone(s, prefix, g, f) ==> f.event.TodoUpdate? || f.event.QuestionAnswered? || f.event.QuestionWithdrawn?
  {
    hide FindLast;
  }

  lemma RewrittenPrefix(prefix: seq<Item>, items: seq<Item>, g: int, index: nat, item: Item)
    requires Kept(prefix, g) && OnTopOf(prefix, items, g) && index < |prefix| && item != prefix[index]
    requires item.key == prefix[index].key
    requires !item.SubtaskItem? && !item.StepItem? && !item.UserItem?
    requires !prefix[index].SubtaskItem?
    ensures Truncate(items[index := item], g) != prefix
  {
    var rewritten := prefix[index := item];
    assert prefix[index] in prefix;
    SameCards(prefix, index, item);
    forall it | it in rewritten
      ensures AtOrBefore(g)(it) && Anchored(CardIds(rewritten))(it) && Acknowledged()(it)
    {
      assert it == item || it in prefix;
    }
    assert OnTopOf(rewritten, items[index := item], g);
    TruncateToPrefix(rewritten, items[index := item], g);
    assert rewritten[index] != prefix[index];
  }

  lemma SameCards(items: seq<Item>, index: nat, item: Item)
    requires index < |items| && !items[index].SubtaskItem? && !item.SubtaskItem?
    ensures CardIds(items[index := item]) == CardIds(items)
  {
    var after := items[index := item];
    forall it | it in items && it.SubtaskItem? ensures it in after {
      var i :| 0 <= i < |items| && items[i] == it;
      assert after[i] == it;
    }
  }

  lemma {:induction false} TailStaysOnTop(s: State, g: int, tail: seq<Action>)
    requires Settled(s.items, g) && s.nextKey < 0
    requires UndoneAll(s, g, tail)
    ensures OnTopOf(s.items, ApplyAll(s, tail).items, g) && ApplyAll(s, tail).nextKey < 0
  {
    if tail != [] {
      var front, a := tail[..|tail| - 1], tail[|tail| - 1];
      forall k | 0 <= k < |front| ensures front[..k] == tail[..k] {}
      TailStaysOnTop(s, g, front);
      if a.Received? {
        assert tail[..|tail| - 1] == front;
        FrameStaysOnTop(s.items, ApplyAll(s, front), g, a.frame);
      }
      hide FoldEvent;
      hide Undone;
      hide Kept;
    }
  }

  /** Rewinding to the boundary of a settled conversation gives back exactly its item list,
      whatever undone span came in between, at rest. */
  lemma RewindUndoes(s: State, g: int, tail: seq<Action>, rewind: Frame)
    requires Settled(s.items, g) && s.nextKey < 0 && UndoneAll(s, g, tail)
    requires rewind.event == Rewind(g) && IsFresh(ApplyAll(s, tail), rewind)
    ensures var before, after := ApplyAll(s, tail), FoldEvent(ApplyAll(s, tail), rewind);
            && after.items == s.items
            && !after.running && after.delta == None && after.pendingQuestionId == None && after.lastOutcome == None
            && after.nextKey == before.nextKey && after.title == before.title && after.replayDone == before.replayDone
            && after.cursors == Advance(before, rewind).cursors
  {
    TailStaysOnTop(s, g, tail);
    TruncateToPrefix(s.items, ApplyAll(s, tail).items, g);
  }

  lemma RewindFolds(s: State, g: int, rewind: Frame)
    requires rewind.event == Rewind(g) && IsFresh(s, rewind)
    ensures FoldEvent(s, rewind).items == Truncate(s.items, g)
  {
    hide Truncate;
  }

  /** The rewind law is exact: after an undone span, one more frame of any kind, durable or not, is
      undone by the rewind if and only if `Undone` says so. */
  lemma RewindUndoesExactly(s: State, g: int, tail: seq<Action>, f: Frame, rewind: Frame)
    requires Settled(s.items, g) && s.nextKey < 0 && UndoneAll(s, g, tail)
    requires rewind.event == Rewind(g) && IsFresh(FoldEvent(ApplyAll(s, tail), f), rewind)
    ensures FoldEvent(FoldEvent(ApplyAll(s, tail), f), rewind).items == s.items
       <==> Undone(ApplyAll(s, tail), s.items, g, f)
  {
    var mid := ApplyAll(s, tail);
    TailStaysOnTop(s, g, tail);
    RewindFolds(FoldEvent(mid, f), g, rewind);
    if Undone(mid, s.items, g, f) {
      FrameStaysOnTop(s.items, mid, g, f);
      TruncateToPrefix(s.items, FoldEvent(mid, f).items, g);
    } else {
      TraceOutlivesRewind(s.items, mid, g, f);
    }
  }

  /** One more item that nothing dooms is all that stays. */
  lemma OutlivesAlone(prefix: seq<Item>, items: seq<Item>, g: int, it: Item)
    requires Kept(prefix, g) && OnTopOf(prefix, items, g)
    requires it.key < 0 && !it.StepItem? && !it.UserItem? && !it.SubtaskItem?
    ensures Truncate(items + [it], g) == prefix + [it]
  {
    var tail := items[|prefix|..];
    var p := Survives(LiveCards(items, g), g);
    assert items == prefix + tail && items + [it] == prefix + (tail + [it]);
    SameLiveCards(items, g, it);
    TruncateToPrefix(prefix, items, g);
    PrefixSurvives(prefix, tail, g, g);
    PrefixSurvives(prefix, tail + [it], g, g);
    assert p(it);
    hide Survives;
    hide Truncate;
    hide Kept;
    FilterConcat(p, tail, [it]);
    FilterAll(p, [it]);
    assert (prefix + Filter(p, tail))[|prefix|..] == Filter(p, tail);
    assert Filter(p, tail) == [];
  }

  lemma SameLiveCards(items: seq<Item>, g: int, it: Item)
    requires !it.SubtaskItem?
    ensures LiveCards(items + [it], g) == LiveCards(items, g)
  {
    FilterConcat(AtOrBefore(g), items, [it]);
  }

  /** The witness for frames without a seq: the error that is pushed when a drive throws stays behind,
      under its negative key, whatever turn it belonged to. */
  lemma PushedErrorOutlivesRewind(s: State, g: int, tail: seq<Action>, error: Frame, rewind: Frame)
    requires Settled(s.items, g) && s.nextKey < 0 && UndoneAll(s, g, tail)
    requires error.event.ErrorNotice? && !IsDurable(error)
    requires rewind.event == Rewind(g) && IsFresh(ApplyAll(s, tail), rewind)
    ensures var mid := ApplyAll(s, tail);
            FoldEvent(FoldEvent(mid, error), rewind).items
            == s.items + [ErrorItem(mid.nextKey, error.task, error.ts, error.event.message)]
  {
    var mid := ApplyAll(s, tail);
    var notice := ErrorItem(mid.nextKey, error.task, error.ts, error.event.message);
    TailStaysOnTop(s, g, tail);
    assert FoldEvent(mid, error).items == mid.items + [notice];
    FoldMovesOneCursor(mid, error);
    RewindFolds(FoldEvent(mid, error), g, rewind);
    OutlivesAlone(s.items, mid.items, g, notice);
  }

  /** A subtask's own end, which carries no seq, is undone exactly when it still finds its card running;
      otherwise it mints a card that stays. */
  lemma LateSubtaskEndOutlivesRewind(s: State, g: int, tail: seq<Action>, end: Frame, rewind: Frame)
    requires Settled(s.items, g) && s.nextKey < 0 && UndoneAll(s, g, tail)
    requires end.event.SubtaskFinished? && !IsDurable(end)
    requires rewind.event == Rewind(g) && IsFresh(ApplyAll(s, tail), rewind)
    ensures FoldEvent(FoldEvent(ApplyAll(s, tail), end), rewind).items == s.items
       <==> Exists(ApplyAll(s, tail).items, IsRunningCardOf(end.event.subtaskId))
  {
    FoldMovesOneCursor(ApplyAll(s, tail), end);
    RewindUndoesExactly(s, g, tail, end, rewind);
    hide FoldEvent;
  }

  // ---------------------------------------------------------------------------
  // The law for undone turns, by the frames alone
  // ---------------------------------------------------------------------------

  /** A frame of a turn opened after a conversation with these cards and questions. */
  predicate OfLaterTurn(cards: set<string>, questions: set<string>, g: int, f: Frame) {
    match f.seqNo
    case Some(n) =>
      && n > g
      && (f.event.Rewind? ==> f.event.targetSeq >= g)
      && (f.event.QuestionAnswered? || f.event.QuestionWithdrawn? ==> f.event.questionId !in questions)
    case None =>
      match f.event
      case ToolCall(_, _, _, ofSubtask) => ofSubtask.Some? && ofSubtask.value !in cards
      case ToolResult(_, _, _, _) => true
      case TurnStarted => true
      case TurnFinished(_, _) => true
      case Delta(_, _, _, _) => true
      case LlmRetry(_) => true
      case ReplayDone => true
      case SessionMeta(_) => true
      case Unrecognised(_) => true
      case _ => false
  }

  function QuestionIds(items: seq<Item>): set<string> {
    set it | it in items && it.QuestionItem? :: it.questionId
  }

  function AsActions(frames: seq<Frame>): seq<Action> {
    seq(|frames|, i requires 0 <= i < |frames| => Received(frames[i]))
  }

  /** A message that opens a turn: durable, and past everything its stream has shown. */
  ghost predicate Opens(s: State, before: seq<Frame>, f: Frame) {
    && f.event.UserMessage? && IsDurable(f) && IsFresh(s, f)
    && forall e :: e in before && IsDurable(e) && ScopeOf(e) == ScopeOf(f) ==> e.seqNo.value < f.seqNo.value
  }

  /** The frame at `i` arrives in an open turn: a message opened one and no rewind came since. */
  ghost predicate InTurn(s: State, span: seq<Frame>, i: nat)
    requires i <= |span|
  {
    exists j :: 0 <= j < i && Opens(s, span[..j], span[j]) && forall k :: j < k < i ==> !span[k].event.Rewind?
  }

  /** A checklist belongs to a turn of its own. */
  ghost predicate ChecklistsInTurns(s: State, span: seq<Frame>) {
    forall i :: 0 <= i < |span| && span[i].event.TodoUpdate? ==> InTurn(s, span, i)
  }

  lemma {:induction false} CursorBound(s: State, frames: seq<Frame>, scope: string, n: int)
    requires CursorAt(s.cursors, scope) < n
    requires forall e :: e in frames && IsDurable(e) && ScopeOf(e) == scope ==> e.seqNo.value < n
    ensures CursorAt(FoldEvents(s, frames).cursors, scope) < n
  {
    if frames != [] {
      var front, last := frames[..|frames| - 1], frames[|frames| - 1];
      assert last in frames && forall e :: e in front ==> e in frames;
      CursorBound(s, front, scope, n);
      FoldMovesOneCursor(FoldEvents(s, front), last);
      hide FoldEvent;
    }
  }

  lemma TurnStaysOpen(s: State, base: nat, f: Frame)
    requires FindLast(s.items, IsUser()) >= base && !f.event.Rewind?
    ensures FindLast(FoldEvent(s, f).items, IsUser()) >= base
  {
    if IsFresh(s, f) {
      var i := FindLast(s.items, IsUser());
      var e := EditOf(s.items, s.nextKey, f);
      var after := Edited(s.items, e);
      assert FoldEvent(s, f).items == after;
      RewritesKeepKind(s.items, s.nextKey, f);
      assert i < |after| && IsUser()(after[i]);
    }
  }

  lemma RewritesKeepKind(items: seq<Item>, nextKey: int, f: Frame)
    requires !f.event.Rewind?
    ensures !EditOf(items, nextKey, f).Truncated?
    ensures var e := EditOf(items, nextKey, f);
            e.Replaced? ==> e.index < |items| && e.item.UserItem? == items[e.index].UserItem?
  {
    hide FindLast;
  }

  /** An opening message lands past the prefix: a settled prefix has no echo to replace. */
  lemma TurnOpens(prefix: seq<Item>, s: State, g: int, f: Frame)
    requires f.event.UserMessage? && IsFresh(s, f) && Settled(prefix, g) && prefix <= s.items
    ensures FindLast(FoldEvent(s, f).items, IsUser()) >= |prefix|
  {
    var e := EditOf(s.items, s.nextKey, f);
    var after := FoldEvent(s, f).items;
    assert after == Edited(s.items, e);
    OpeningEdit(prefix, s, g, f);
    var at := if e.Appended? then |s.items| else e.index;
    assert IsUser()(after[at]);
  }

  lemma OpeningEdit(prefix: seq<Item>, s: State, g: int, f: Frame)
    requires f.event.UserMessage? && Settled(prefix, g) && prefix <= s.items
    ensures var e := EditOf(s.items, s.nextKey, f);
            && (e.Appended? || (e.Replaced? && |prefix| <= e.index < |s.items|))
            && e.item.UserItem?
  {
    assert forall i :: 0 <= i < |prefix| ==>
        s.items[i] == prefix[i] && prefix[i] in prefix && Acknowledged()(prefix[i]);
    hide FindLast;
  }

  lemma LaterTurnIsUndone(prefix: seq<Item>, mid: State, g: int, f: Frame)
    requires prefix <= mid.items
    requires OfLaterTurn(CardIds(prefix), QuestionIds(prefix), g, f)
    requires f.event.TodoUpdate? ==> FindLast(mid.items, IsUser()) >= |prefix|
    ensures Undone(mid, prefix, g, f)
  {
    assert forall i :: 0 <= i < |prefix| ==> mid.items[i] == prefix[i] && prefix[i] in prefix;
    hide FindLast;
  }

  /** Since its opening message the turn is open. */
  lemma {:induction false} OpenSince(s: State, g: int, front: seq<Frame>, j: nat)
    requires Settled(s.items, g) && s.nextKey < 0 && UndoneAll(s, g, AsActions(front))
    requires j < |front| && Opens(s, front[..j], front[j])
    requires forall k :: j < k < |front| ==> !front[k].event.Rewind?
    ensures FindLast(ApplyAll(s, AsActions(front)).items, IsUser()) >= |s.items|
  {
    hide FoldEvent;
    hide FindLast;
    hide Undone;
    var before, f := front[..|front| - 1], front[|front| - 1];
    var mid := ApplyAll(s, AsActions(before));
    FrontIsUndone(s, g, front);
    assert front[..j] == before[..j];
    if j == |front| - 1 {
      TailStaysOnTop(s, g, AsActions(before));
      FoldIsApply(s, before);
      CursorBound(s, before, ScopeOf(f), f.seqNo.value);
      TurnOpens(s.items, mid, g, f);
    } else {
      OpenSince(s, g, before, j);
      TurnStaysOpen(mid, |s.items|, f);
    }
  }

  lemma FrontIsUndone(s: State, g: int, span: seq<Frame>)
    requires span != [] && UndoneAll(s, g, AsActions(span))
    ensures UndoneAll(s, g, AsActions(span[..|span| - 1]))
    ensures ApplyAll(s, AsActions(span)) == FoldEvent(ApplyAll(s, AsActions(span[..|span| - 1])), span[|span| - 1])
  {
    hide FoldEvent;
    hide Undone;
    var all, front := AsActions(span), AsActions(span[..|span| - 1]);
    assert all[..|all| - 1] == front;
    forall k | 0 <= k < |front| ensures front[..k] == all[..k] {}
  }

  /** The last frame of a span is in a turn: the message that opened it is still there. */
  lemma TurnIsOpen(s: State, g: int, span: seq<Frame>)
    requires span != [] && Settled(s.items, g) && s.nextKey < 0
    requires UndoneAll(s, g, AsActions(span[..|span| - 1])) && InTurn(s, span, |span| - 1)
    ensures FindLast(ApplyAll(s, AsActions(span[..|span| - 1])).items, IsUser()) >= |s.items|
  {
    hide FindLast;
    hide UndoneAll;
    hide Settled;
    hide Opens;
    var front := span[..|span| - 1];
    var j :| 0 <= j < |front| && Opens(s, span[..j], span[j])
             && forall k :: j < k < |front| ==> !span[k].event.Rewind?;
    assert span[..j] == front[..j];
    OpenSince(s, g, front, j);
  }

  lemma {:induction false} TurnsAreUndone(s: State, g: int, span: seq<Frame>)
    requires ChecklistsInTurns(s, span) && Settled(s.items, g) && s.nextKey < 0
    requires forall f :: f in span ==> OfLaterTurn(CardIds(s.items), QuestionIds(s.items), g, f)
    ensures UndoneAll(s, g, AsActions(span))
  {
    hide FoldEvent;
    hide FindLast;
    hide Undone;
    hide Settled;
    hide OfLaterTurn;
    if span != [] {
      var front, f := span[..|span| - 1], span[|span| - 1];
      var mid := ApplyAll(s, AsActions(front));
      assert f in span && AsActions(span) == AsActions(front) + [Received(f)];
      FrontHasChecklistsInTurns(s, span);
      assert forall e :: e in front ==> e in span;
      TurnsAreUndone(s, g, front);
      TailStaysOnTop(s, g, AsActions(front));
      if f.event.TodoUpdate? { TurnIsOpen(s, g, span); }
      LaterTurnIsUndone(s.items, mid, g, f);
      UndoneExtends(s, g, AsActions(front), f);
    }
  }

  lemma FrontHasChecklistsInTurns(s: State, span: seq<Frame>)
    requires span != [] && ChecklistsInTurns(s, span)
    ensures ChecklistsInTurns(s, span[..|span| - 1])
  {
    hide Opens;
    var front := span[..|span| - 1];
    forall i | 0 <= i < |front| && front[i].event.TodoUpdate? ensures InTurn(s, front, i) {
      assert InTurn(s, span, i);
      var j :| 0 <= j < i && Opens(s, span[..j], span[j]) && forall k :: j < k < i ==> !span[k].event.Rewind?;
      assert front[..j] == span[..j];
    }
  }

  /** Undoing turns: a settled conversation, any number of later turns of durable frames with fresh ids
      plus their synthetic subtask steps, inner rewinds at or past the boundary included, and a rewind to
      the boundary give back exactly the first item list. */
  lemma RewindUndoesTurns(s: State, g: int, span: seq<Frame>, rewind: Frame)
    requires ChecklistsInTurns(s, span) && Settled(s.items, g) && s.nextKey < 0
    requires forall f :: f in span ==> OfLaterTurn(CardIds(s.items), QuestionIds(s.items), g, f)
    requires rewind.event == Rewind(g) && IsFresh(FoldEvents(s, span), rewind)
    ensures var after := FoldEvents(s, span + [rewind]);
            && after.items == s.items
            && !after.running && after.delta == None && after.pendingQuestionId == None && after.lastOutcome == None
  {
    assert (span + [rewind])[..|span|] == span;
    FoldIsApply(s, span);
    TurnsAreUndone(s, g, span);
    RewindUndoes(s, g, AsActions(span), rewind);
    hide FoldEvent;
  }

  lemma {:induction false} FoldIsApply(s: State, frames: seq<Frame>)
    ensures FoldEvents(s, frames) == ApplyAll(s, AsActions(frames))
  {
    hide FoldEvent;
    if frames != [] {
      assert AsActions(frames)[..|frames| - 1] == AsActions(frames[..|frames| - 1]);
      FoldIsApply(s, frames[..|frames| - 1]);
    }
  }

  // ---------------------------------------------------------------------------
  // Deltas do not interfere
  // ---------------------------------------------------------------------------

  /** Equal in everything but the streaming preview. */
  predicate SameButPreview(s: State, t: State) {
    s.(delta := None) == t.(delta := None)
  }

  lemma FlagsIgnorePreview(s: State, t: State, e: Event)
    requires SameButPreview(s, t)
    ensures SameButPreview(Flagged(s, e), Flagged(t, e))
  {
  }

  lemma FrameIgnoresPreview(s: State, t: State, f: Frame)
    requires SameButPreview(s, t)
    ensures SameButPreview(FoldEvent(s, f), FoldEvent(t, f))
  {
    FlagsIgnorePreview(Advance(s, f), Advance(t, f), f.event);
  }

  lemma DeltaOnlyPreviews(s: State, f: Frame)
    requires IsDelta(f) && f.seqNo.None?
    ensures SameButPreview(FoldEvent(s, f), s)
  {
  }

  /** Deleting any deltas changes nothing a later frame can see: items, keys, cursors, running,
      outcome and pending question are those of the full sequence. */
  lemma {:induction false} DeltasDoNotInterfere(s: State, xs: seq<Frame>, ys: seq<Frame>)
    requires Thinned(xs, ys) && DeltasAreSynthetic(xs)
    ensures SameButPreview(FoldEvents(s, xs), FoldEvents(s, ys))
  {
    hide FoldEvent;
    if xs != [] {
      var x, front := xs[|xs| - 1], xs[..|xs| - 1];
      assert x in xs && forall f :: f in front ==> f in xs;
      if ys != [] && ys[|ys| - 1] == x && Thinned(front, ys[..|ys| - 1]) {
        DeltasDoNotInterfere(s, front, ys[..|ys| - 1]);
        FrameIgnoresPreview(FoldEvents(s, front), FoldEvents(s, ys[..|ys| - 1]), x);
      } else {
        DeltasDoNotInterfere(s, front, ys);
        DeltaOnlyPreviews(FoldEvents(s, front), x);
      }
    }
  }

  /** The frames that repaint or clear the preview. */
  predicate Repaints(e: Event) {
    e.AssistantText? || e.ThinkingText? || e.QuestionAsked? || e.TurnFinished? || e.ErrorNotice? || e.Rewind?
  }

  lemma RepaintClearsPreview(s: State, paint: Frame)
    requires Repaints(paint.event) && IsFresh(s, paint)
    ensures FoldEvent(s, paint).delta == None
  {
  }

  /** The next repaint erases the last trace of which deltas arrived. */
  lemma RepaintErasesDeltas(s: State, xs: seq<Frame>, ys: seq<Frame>, paint: Frame)
    requires Thinned(xs, ys) && DeltasAreSynthetic(xs)
    requires Repaints(paint.event) && IsFresh(FoldEvents(s, xs), paint)
    ensures FoldEvents(s, xs + [paint]) == FoldEvents(s, ys + [paint])
  {
    DeltasDoNotInterfere(s, xs, ys);
    assert (xs + [paint])[..|xs|] == xs && (ys + [paint])[..|ys|] == ys;
    var full, thin := FoldEvents(s, xs), FoldEvents(s, ys);
    FrameIgnoresPreview(full, thin, paint);
    RepaintClearsPreview(full, paint);
    RepaintClearsPreview(thin, paint);
    assert FoldEvent(full, paint).(delta := None) == FoldEvent(full, paint);
  }

  // ---------------------------------------------------------------------------
  // Re-sent frames
  // ---------------------------------------------------------------------------

  /** Two steps of one call are running. */
  predicate TwiceRunning(items: seq<Item>, callId: string) {
    exists i, j :: 0 <= i < j < |items| && IsRunningStepOf(callId)(items[i]) && IsRunningStepOf(callId)(items[j])
  }

  /** The events whose frame, re-sent without a seq, changes nothing. */
  predicate RepeatIsNoOp(s: State, e: Event) {
    match e
    case UserMessage(_, _) => false
    case AssistantText(_) => false
    case ThinkingText(_) => false
    case RecallText(_) => false
    case MemoryOp(_, _, _) => false
    case SkillActivated(_) => false
    case SubtaskFinished(_, _, _) => false
    case QuestionAsked(_, _, _) => false
    case Compaction(_) => false
    case ErrorNotice(_) => false
    case ToolResult(callId, _, _, _) => !TwiceRunning(s.items, callId)
    case Delta(callId, _, text, _) => callId == "" || text == ""
    case _ => true
  }

  /** A second copy of the frame changes nothing. */
  predicate Twice(s: State, f: Frame) {
    FoldEvent(FoldEvent(s, f), f) == FoldEvent(s, f)
  }

  lemma AppendsEveryTime(s: State, f: Frame)
    requires f.seqNo.None?
    requires f.event.AssistantText? || f.event.ThinkingText? || f.event.RecallText? || f.event.MemoryOp?
          || f.event.SkillActivated? || f.event.QuestionAsked? || f.event.Compaction? || f.event.ErrorNotice?
    ensures |FoldEvent(s, f).items| == |s.items| + 1
  {
  }

  lemma UserMessageTakesAKey(s: State, f: Frame)
    requires f.seqNo.None? && f.event.UserMessage?
    ensures FoldEvent(s, f).nextKey == s.nextKey - 1
  {
  }

  /** A subtask end without a seq either closes a running card or mints a closed one. */
  lemma SubtaskEndChanges(s: State, f: Frame)
    requires f.seqNo.None? && f.event.SubtaskFinished?
    ensures FoldEvent(s, f).items != s.items
  {
    var index := FindLast(s.items, IsRunningCardOf(f.event.subtaskId));
    if index >= 0 {
      assert FoldEvent(s, f).items[index] != s.items[index];
    } else {
      assert |FoldEvent(s, f).items| == |s.items| + 1;
    }
  }

  lemma ToolResultRepeats(s: State, f: Frame)
    requires f.event.ToolResult?
    ensures EditOf(FoldRecognised(s, f).items, s.nextKey, f) == Unchanged <==> !TwiceRunning(s.items, f.event.callId)
  {
    var running := IsRunningStepOf(f.event.callId);
    var items := FoldRecognised(s, f).items;
    var last := FindLast(s.items, running);
    if last != -1 {
      assert !running(items[last]) && forall i :: 0 <= i < |items| && i != last ==> items[i] == s.items[i];
      var before := FindLast(items, running);
      if before != -1 { assert before < last && running(s.items[before]); }
    }
  }

  lemma {:induction false} ClosingTwice(items: seq<Item>, status: TurnStatus)
    ensures MapItems(MapItems(items, ForceClose(status)), ForceClose(status)) == MapItems(items, ForceClose(status))
  {
  }

  lemma TodosTwice(s: State, f: Frame)
    requires f.seqNo.None? && f.event.TodoUpdate?
    ensures Twice(s, f)
  {
    var once := FoldEvent(s, f);
    TodosFold(s, f);
    TodosFold(once, f);
    hide FoldEvent;
    TodosCardTwice(s.items, s.nextKey, once.nextKey, f, f.event.todos);
    hide TodosEdit;
    hide Edited;
  }

  lemma TodosFold(s: State, f: Frame)
    requires f.seqNo.None? && f.event.TodoUpdate?
    ensures var e := TodosEdit(s.items, s.nextKey, f, f.event.todos);
            FoldEvent(s, f)
            == s.(items := Edited(s.items, e), nextKey := if e.Appended? then s.nextKey - 1 else s.nextKey)
  {
    hide TodosEdit;
    hide Edited;
  }

  lemma TodosCardTwice(items: seq<Item>, nextKey: int, later: int, f: Frame, todos: seq<string>)
    ensures var once := Edited(items, TodosEdit(items, nextKey, f, todos));
            var again := TodosEdit(once, later, f, todos);
            again.Replaced? && Edited(once, again) == once
  {
    var once := Edited(items, TodosEdit(items, nextKey, f, todos));
    var index, user := FindLast(items, IsTodos()), FindLast(items, IsUser());
    hide FindLast;
    TodosCardStands(once, if index > user then index else |items|, later, f, todos);
  }

  lemma TodosCardStands(items: seq<Item>, card: nat, later: int, f: Frame, todos: seq<string>)
    requires card < |items| && items[card].TodosItem? && items[card].todos == todos
    requires forall i :: card < i < |items| ==> !items[i].TodosItem? && !items[i].UserItem?
    ensures TodosEdit(items, later, f, todos) == Replaced(card, items[card])
    ensures items[card := items[card]] == items
  {
    FindLastAt(items, IsTodos(), card);
    var user := FindLast(items, IsUser());
    assert user >= 0 ==> IsUser()(items[user]);
    hide FindLast;
  }

  lemma FindLastAt(items: seq<Item>, p: Item -> bool, at: nat)
    requires at < |items| && p(items[at]) && forall i :: at < i < |items| ==> !p(items[i])
    ensures FindLast(items, p) == at
  {
    var found := FindLast(items, p);
    assert p(items[found]);
  }

  lemma DeltaTwice(s: State, f: Frame)
    requires f.seqNo.None? && f.event.Delta?
    ensures Twice(s, f) <==> f.event.callId == "" || f.event.text == ""
  {
    var callId, kind, text, index := f.event.callId, f.event.kind, f.event.text, f.event.index;
    DeltaFold(s, f);
    DeltaFold(FoldEvent(s, f), f);
    hide FoldEvent;
    if callId != "" {
      var once := ApplyDelta(s.delta, callId, kind, text, index).value;
      var had := once.blocks[index].text;
      assert ApplyDelta(Some(once), callId, kind, text, index).value.blocks[index].text == had + text;
      assert |had + text| == |had| + |text|;
      if text == "" {
        assert had + text == had;
        assert once.blocks[index := once.blocks[index]] == once.blocks;
      }
    }
  }

  lemma DeltaFold(s: State, f: Frame)
    requires f.seqNo.None? && f.event.Delta?
    ensures FoldEvent(s, f)
         == s.(delta := ApplyDelta(s.delta, f.event.callId, f.event.kind, f.event.text, f.event.index))
  {
    hide ApplyDelta;
  }

  lemma CallTwice(s: State, f: Frame)
    requires f.seqNo.None? && (f.event.ToolCall? || f.event.SubtaskStarted?)
    ensures Twice(s, f)
  {
    var once := FoldEvent(s, f);
    if EditOf(s.items, s.nextKey, f).Appended? {
      assert once.items == s.items + [once.items[|s.items|]];
      assert EditOf(once.items, once.nextKey, f) == Unchanged;
    }
  }

  lemma QuestionEndTwice(s: State, f: Frame)
    requires f.seqNo.None? && (f.event.QuestionAnswered? || f.event.QuestionWithdrawn?)
    ensures Twice(s, f)
  {
    QuestionEndFold(s, f);
    QuestionEndFold(FoldEvent(s, f), f);
    hide FoldEvent;
    QuestionEndsTwice(s.items, f.event.questionId, f.event.QuestionAnswered?);
    hide QuestionEndEdit;
    hide Edited;
  }

  lemma QuestionEndFold(s: State, f: Frame)
    requires f.seqNo.None? && (f.event.QuestionAnswered? || f.event.QuestionWithdrawn?)
    ensures FoldEvent(s, f)
         == s.(items := Edited(s.items, QuestionEndEdit(s.items, f.event.questionId, f.event.QuestionAnswered?)),
               pendingQuestionId := ReleaseGate(s, f.event.questionId))
  {
    hide FindLast;
  }

  lemma FlagsTwice(s: State, f: Frame)
    requires f.seqNo.None?
    requires f.event.LlmRetry? || f.event.TurnStarted? || f.event.ReplayDone? || f.event.SessionMeta?
        || f.event.Unrecognised?
    ensures Twice(s, f)
  {
  }

  lemma FinishTwice(s: State, f: Frame)
    requires f.seqNo.None? && f.event.TurnFinished?
    ensures Twice(s, f)
  {
    ClosingTwice(s.items, f.event.status);
    hide MapItems;
    hide ForceClose;
  }

  lemma RewoundState(s: State, f: Frame)
    requires f.seqNo.None? && f.event.Rewind?
    ensures FoldEvent(s, f)
         == s.(items := Truncate(s.items, f.event.targetSeq), running := false, delta := None,
               pendingQuestionId := None, lastOutcome := None)
  {
    hide Truncate;
  }

  lemma RewindTwice(s: State, f: Frame)
    requires f.seqNo.None? && f.event.Rewind?
    ensures Twice(s, f)
  {
    RewoundState(s, f);
    RewoundState(FoldEvent(s, f), f);
    hide FoldEvent;
    TruncateCompose(s.items, f.event.targetSeq, f.event.targetSeq);
    hide Truncate;
  }

  lemma ResultTwice(s: State, f: Frame)
    requires f.seqNo.None? && f.event.ToolResult?
    ensures Twice(s, f) <==> !TwiceRunning(s.items, f.event.callId)
  {
    ToolResultRepeats(s, f);
    hide TwiceRunning;
    var once := FoldEvent(s, f);
    var index := FindLast(once.items, IsRunningStepOf(f.event.callId));
    if index != -1 { assert FoldEvent(once, f).items[index] != once.items[index]; }
  }

  /** The events that change something however often they come. */
  lemma NeverTwice(s: State, f: Frame)
    requires f.seqNo.None? && !RepeatIsNoOp(s, f.event) && !f.event.ToolResult? && !f.event.Delta?
    ensures !Twice(s, f)
  {
    var once := FoldEvent(s, f);
    hide FoldEvent;
    if f.event.UserMessage? {
      UserMessageTakesAKey(once, f);
    } else if f.event.SubtaskFinished? {
      SubtaskEndChanges(once, f);
    } else {
      AppendsEveryTime(once, f);
    }
  }

  lemma QuestionEndsTwice(items: seq<Item>, id: string, withAnswer: bool)
    ensures var once := Edited(items, QuestionEndEdit(items, id, withAnswer));
            Edited(once, QuestionEndEdit(once, id, withAnswer)) == once
  {
    var index := FindLast(items, IsQuestionOf(id));
    var once := Edited(items, QuestionEndEdit(items, id, withAnswer));
    if index != -1 {
      assert IsQuestionOf(id)(once[index]);
      assert forall i :: index < i < |once| ==> once[i] == items[i] && !IsQuestionOf(id)(once[i]);
      assert FindLast(once, IsQuestionOf(id)) == index;
      assert once[index := once[index]] == once;
    } else {
      assert once == items;
    }
  }

  /** A frame without a seq is never deduplicated by a cursor; re-sent, as a full replay does, it is a
      no-op for exactly these events in exactly these states. */
  lemma RepeatedFrame(s: State, f: Frame)
    requires f.seqNo.None?
    ensures FoldEvent(FoldEvent(s, f), f) == FoldEvent(s, f) <==> RepeatIsNoOp(s, f.event)
  {
    assert Twice(s, f) <==> FoldEvent(FoldEvent(s, f), f) == FoldEvent(s, f);
    hide FoldEvent;
    hide TwiceRunning;
    hide Twice;
    match f.event
    case ToolResult(_, _, _, _) => ResultTwice(s, f);
    case TodoUpdate(_) => TodosTwice(s, f);
    case Delta(_, _, _, _) => DeltaTwice(s, f);
    case TurnFinished(_, _) => FinishTwice(s, f);
    case Rewind(_) => RewindTwice(s, f);
    case ToolCall(_, _, _, _) => CallTwice(s, f);
    case SubtaskStarted(_, _, _) => CallTwice(s, f);
    case QuestionAnswered(_) => QuestionEndTwice(s, f);
    case QuestionWithdrawn(_) => QuestionEndTwice(s, f);
    case LlmRetry(_) => FlagsTwice(s, f);
    case TurnStarted => FlagsTwice(s, f);
    case ReplayDone => FlagsTwice(s, f);
    case SessionMeta(_) => FlagsTwice(s, f);
    case Unrecognised(_) => FlagsTwice(s, f);
    case _ => NeverTwice(s, f);
  }

  // ---------------------------------------------------------------------------
  // Keys never collide
  // ---------------------------------------------------------------------------

  /** Synthetic keys are pairwise distinct; with `durableToo`, all keys are. */
  predicate KeysDistinct(items: seq<Item>, durableToo: bool) {
    forall i, j :: 0 <= i < j < |items| && (durableToo || items[i].key < 0) ==> items[i].key != items[j].key
  }

  lemma {:induction false} FilterKeepsKeys(p: Item -> bool, items: seq<Item>, durableToo: bool)
    requires KeysDistinct(items, durableToo)
    ensures KeysDistinct(Filter(p, items), durableToo)
  {
    if items != [] {
      var front := items[..|items| - 1];
      FilterKeepsKeys(p, front, durableToo);
      forall it | it in Filter(p, front) && (durableToo || it.key < 0) ensures it.key != items[|items| - 1].key {
        var i :| 0 <= i < |front| && items[i] == it;
      }
    }
  }

  lemma EditKeepsDistinct(items: seq<Item>, e: Edit, key: int, durableToo: bool)
    requires KeysDistinct(items, durableToo)
    requires durableToo || key < 0 ==> forall it :: it in items ==> it.key != key
    requires e.Appended? ==> e.item.key == key
    requires e.Replaced? ==> e.index < |items| && (e.item.key == key || e.item.key == items[e.index].key)
    ensures KeysDistinct(Edited(items, e), durableToo)
  {
    match e
    case Truncated(target) => TruncateKeepsDistinct(items, target, durableToo);
    case Closed(status) => CloseKeepsDistinct(items, status, durableToo);
    case Unchanged =>
    case _ =>
      hide KeysDistinct;
      var changed := Edited(items, e);
      forall i, j | 0 <= i < j < |changed| && (durableToo || changed[i].key < 0)
        ensures changed[i].key != changed[j].key
      {
        ChangedKeys(items, e, key, durableToo, i, j);
      }
      assert KeysDistinct(changed, durableToo) by { IsKeysDistinct(changed, durableToo); }
  }

  lemma IsKeysDistinct(items: seq<Item>, durableToo: bool)
    requires forall i, j :: 0 <= i < j < |items| && (durableToo || items[i].key < 0) ==> items[i].key != items[j].key
    ensures KeysDistinct(items, durableToo)
  {
  }

  lemma ChangedKeys(items: seq<Item>, e: Edit, key: int, durableToo: bool, i: nat, j: nat)
    requires KeysDistinct(items, durableToo)
    requires durableToo || key < 0 ==> forall it :: it in items ==> it.key != key
    requires e.Appended? || (e.Replaced? && e.index < |items|)
    requires e.Appended? ==> e.item.key == key
    requires e.Replaced? ==> e.item.key == key || e.item.key == items[e.index].key
    requires i < j < |Edited(items, e)| && (durableToo || Edited(items, e)[i].key < 0)
    ensures Edited(items, e)[i].key != Edited(items, e)[j].key
  {
    assert i < |items| ==> items[i] in items;
    assert j < |items| ==> items[j] in items;
  }

  lemma TruncateKeepsDistinct(items: seq<Item>, target: int, durableToo: bool)
    requires KeysDistinct(items, durableToo)
    ensures KeysDistinct(Truncate(items, target), durableToo)
  {
    hide KeysDistinct;
    var survivors := Filter(AtOrBefore(target), items);
    FilterKeepsKeys(AtOrBefore(target), items, durableToo);
    FilterKeepsKeys(Anchored(CardIds(survivors)), survivors, durableToo);
    FilterKeepsKeys(Acknowledged(), Filter(Anchored(CardIds(survivors)), survivors), durableToo);
  }

  lemma CloseKeepsDistinct(items: seq<Item>, status: TurnStatus, durableToo: bool)
    requires KeysDistinct(items, durableToo)
    ensures KeysDistinct(MapItems(items, ForceClose(status)), durableToo)
  {
    assert forall i :: 0 <= i < |items| ==> MapItems(items, ForceClose(status))[i].key == items[i].key;
  }

  /** Keys of durable items stay at or below their stream's cursor. */
  ghost predicate KeysAtOrBelow(items: seq<Item>, top: int) {
    forall it :: it in items ==> it.key <= top
  }

  lemma EditKeepsTop(items: seq<Item>, e: Edit, top: int)
    requires KeysAtOrBelow(items, top)
    requires e.Appended? ==> e.item.key <= top
    requires e.Replaced? ==> e.index < |items| && e.item.key <= top
    ensures KeysAtOrBelow(Edited(items, e), top)
  {
    if e.Closed? {
      assert forall i :: 0 <= i < |items| ==> Edited(items, e)[i].key == items[i].key;
    }
  }

  /** What every fold keeps, for one stream (`one`) or for several. */
  ghost predicate KeysInv(s: State, scope: string, one: bool) {
    && KeysBelow(s.items, s.nextKey)
    && KeysDistinct(s.items, one)
    && (one ==> KeysAtOrBelow(s.items, CursorAt(s.cursors, scope)) && CursorAt(s.cursors, scope) >= -1)
  }

  lemma FrameKeepsKeys(s: State, f: Frame, scope: string, one: bool)
    requires KeysInv(s, scope, one) && (one && IsDurable(f) ==> ScopeOf(f) == scope)
    ensures KeysInv(FoldEvent(s, f), scope, one)
  {
    if IsFresh(s, f) {
      var e, key := EditOf(s.items, s.nextKey, f), KeyFor(s.nextKey, f);
      var after := FoldEvent(s, f);
      FoldEventKeepsKeys(s, f);
      EditKeys(s.items, s.nextKey, f);
      FoldMovesOneCursor(s, f);
      assert after.items == Edited(s.items, e);
      EditKeepsDistinct(s.items, e, key, one);
      if one {
        var top := CursorAt(after.cursors, scope);
        assert key <= top && CursorAt(s.cursors, scope) <= top;
        assert forall i :: 0 <= i < |s.items| ==> s.items[i] in s.items;
        EditKeepsTop(s.items, e, top);
      }
    }
  }

  /** Render keys never collide: along any fold of frames and echoes the synthetic keys are pairwise
      distinct, and so are all keys when the durable frames come from one stream. */
  lemma {:induction false} KeysNeverCollide(actions: seq<Action>, scope: string, one: bool)
    requires one ==> forall a :: a in actions && a.Received? && IsDurable(a.frame) ==> ScopeOf(a.frame) == scope
    ensures KeysInv(ApplyAll(INITIAL, actions), scope, one)
  {
    hide FoldEvent;
    if actions != [] {
      var front, a := actions[..|actions| - 1], actions[|actions| - 1];
      assert a in actions && forall b :: b in front ==> b in actions;
      KeysNeverCollide(front, scope, one);
      var mid := ApplyAll(INITIAL, front);
      if a.Received? {
        FrameKeepsKeys(mid, a.frame, scope, one);
      } else {
        var echo := UserItem(mid.nextKey, None, None, a.content, a.images, true);
        EditKeepsDistinct(mid.items, Appended(echo), mid.nextKey, one);
      }
    }
  }
}
