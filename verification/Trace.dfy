/** The trace surface's `{task: seq}` cursor (noeta/agent/api/trace.py). */
module Trace {
  import opened Collections
  import opened Translator
  import Replay

  type Log = map<string, seq<Envelope>>

  type SeqCursor = map<string, int>

  /** One task's stream; an unknown task reads as empty. */
  function Stream(log: Log, task: string): seq<Envelope> {
    if task in log then log[task] else []
  }

  /** What one poll reads of a task. */
  function Fresh(log: Log, cursor: SeqCursor, task: string): seq<Envelope> {
    Replay.EventsAfter(Stream(log, task), if task in cursor then Some(cursor[task]) else None)
  }

  function OfTask(task: string): Envelope -> bool {
    (env: Envelope) => env.taskId == task
  }

  /** A cursor value after reading `events`: it only ever moves up. */
  function Raised(value: int, events: seq<Envelope>): int {
    if events == [] then value
    else
      var before, seqNo := Raised(value, events[..|events| - 1]), events[|events| - 1].seqNo;
      if before < seqNo then seqNo else before
  }

  function Position(cursor: SeqCursor, task: string): int {
    if task in cursor then cursor[task] else -1
  }

  /** Streams count their own seq upwards. */
  ghost predicate Streams(log: Log) {
    forall t :: t in log ==> IsStream(t, log[t])
  }

  ghost predicate Closed(log: Log, cursor: SeqCursor, tasks: set<string>) {
    forall t, env :: t in tasks && env in Fresh(log, cursor, t) && SpawnOf(env).Some? ==> SpawnOf(env).value in tasks
  }

  /** `tasks` is everything reachable from `roots` by the spawn markers past the cursor, and no more. */
  ghost predicate Reached(log: Log, cursor: SeqCursor, roots: set<string>, tasks: set<string>) {
    && roots <= tasks
    && Closed(log, cursor, tasks)
    && forall others :: roots <= others && Closed(log, cursor, others) ==> tasks <= others
  }

  // ---------------------------------------------------------------------------
  // The worklist
  // ---------------------------------------------------------------------------

  /** The subtasks that `events` announce and that have not been read yet, in order. */
  function Announced(events: seq<Envelope>, seen: set<string>): (ids: seq<string>)
    ensures forall u :: u in ids <==> u !in seen && exists env :: env in events && SpawnOf(env) == Some(u)
  {
    if events == [] then []
    else
      var front, last := events[..|events| - 1], events[|events| - 1];
      assert events == front + [last];
      Announced(front, seen)
      + if SpawnOf(last).Some? && SpawnOf(last).value !in seen then [SpawnOf(last).value] else []
  }

  /** The worklist between two steps. */
  ghost predicate Walking(log: Log, cursor: SeqCursor, roots: set<string>, seen: set<string>, pending: seq<string>) {
    && (forall t :: t in roots ==> t in seen || t in pending)
    && (forall t, env :: t in seen && env in Fresh(log, cursor, t) && SpawnOf(env).Some? ==>
          SpawnOf(env).value in seen || SpawnOf(env).value in pending)
    && (forall others, t :: roots <= others && Closed(log, cursor, others) && (t in seen || t in pending) ==>
        t in others)
  }

  lemma SkipSeen(log: Log, cursor: SeqCursor, roots: set<string>, seen: set<string>, pending: seq<string>)
    requires Walking(log, cursor, roots, seen, pending) && pending != [] && pending[0] in seen
    ensures Walking(log, cursor, roots, seen, pending[1..])
  {
    hide Fresh;
    hide SpawnOf;
    assert pending == [pending[0]] + pending[1..];
  }

  lemma VisitNew(log: Log, cursor: SeqCursor, roots: set<string>, seen: set<string>, pending: seq<string>)
    requires Walking(log, cursor, roots, seen, pending) && pending != []
    ensures var after := seen + {pending[0]};
            Walking(log, cursor, roots, after, pending[1..] + Announced(Fresh(log, cursor, pending[0]), after))
  {
    hide Fresh;
    hide SpawnOf;
    var task, after := pending[0], seen + {pending[0]};
    var events := Fresh(log, cursor, task);
    var announced := Announced(events, after);
    assert pending == [task] + pending[1..];
    forall t, env | t in after && env in Fresh(log, cursor, t) && SpawnOf(env).Some?
      ensures SpawnOf(env).value in after || SpawnOf(env).value in pending[1..] + announced
    {
      if t == task && SpawnOf(env).value !in after { assert SpawnOf(env).value in announced; }
    }
    forall others, t | roots <= others && Closed(log, cursor, others) && (t in after || t in pending[1..] + announced)
      ensures t in others
    {
      assert task in others;
    }
  }

  lemma WalkEnds(log: Log, cursor: SeqCursor, roots: set<string>, seen: set<string>)
    requires Walking(log, cursor, roots, seen, [])
    ensures Reached(log, cursor, roots, seen)
  {
    hide Fresh;
    hide SpawnOf;
  }

  /** The returned events, stream by stream. */
  ghost predicate Grouped(log: Log, cursor: SeqCursor, seen: set<string>, envelopes: seq<Envelope>) {
    forall t :: Filter(OfTask(t), envelopes) == if t in seen then Fresh(log, cursor, t) else []
  }

  ghost predicate Moved(log: Log, cursor: SeqCursor, seen: set<string>, advanced: SeqCursor) {
    && advanced.Keys == cursor.Keys + seen
    && forall t :: t in advanced ==>
         advanced[t] == if t in seen then Raised(Position(cursor, t), Fresh(log, cursor, t)) else cursor[t]
  }

  /** What a poll returns: exactly the reachable streams past the cursor, and a cursor moved over them. */
  ghost predicate Collected(log: Log, cursor: SeqCursor, roots: set<string>, envelopes: seq<Envelope>,
                            advanced: SeqCursor) {
    exists visited ::
      && Reached(log, cursor, roots, visited)
      && Grouped(log, cursor, visited, envelopes)
      && Moved(log, cursor, visited, advanced)
  }

  lemma FreshIsOfTask(log: Log, cursor: SeqCursor, task: string, other: string)
    requires Streams(log)
    ensures Filter(OfTask(other), Fresh(log, cursor, task)) == if other == task then Fresh(log, cursor, task) else []
  {
    var events := Fresh(log, cursor, task);
    assert forall env :: env in events ==> env.taskId == task;
    if other == task {
      FilterAll(OfTask(other), events);
    } else {
      FilterNone(OfTask(other), events);
    }
  }

  lemma GroupOne(log: Log, cursor: SeqCursor, seen: set<string>, envelopes: seq<Envelope>, task: string)
    requires Streams(log) && Grouped(log, cursor, seen, envelopes) && task !in seen
    ensures Grouped(log, cursor, seen + {task}, envelopes + Fresh(log, cursor, task))
  {
    hide Fresh;
    hide Streams;
    forall t
      ensures Filter(OfTask(t), envelopes + Fresh(log, cursor, task))
           == if t in seen + {task} then Fresh(log, cursor, t) else []
    {
      FilterConcat(OfTask(t), envelopes, Fresh(log, cursor, task));
      FreshIsOfTask(log, cursor, task, t);
    }
  }

  /** Every id the worklist can meet. */
  ghost function Known(log: Log, taskIds: seq<string>): set<string> {
    (set t | t in taskIds)
    + set t, i | t in log && 0 <= i < |log[t]| && SpawnOf(log[t][i]).Some? :: SpawnOf(log[t][i]).value
  }

  lemma WalkStarts(log: Log, cursor: SeqCursor, taskIds: seq<string>)
    ensures Walking(log, cursor, (set t | t in taskIds), {}, taskIds)
    ensures Grouped(log, cursor, {}, [])
    ensures Moved(log, cursor, {}, cursor)
  {
    hide Fresh;
    hide SpawnOf;
  }

  /** Reading one more stream moves its own cursor value only. */
  lemma MoveOne(log: Log, cursor: SeqCursor, seen: set<string>, advanced: SeqCursor, task: string)
    requires Moved(log, cursor, seen, advanced) && task !in seen
    ensures task in advanced <==> task in cursor
    ensures task in cursor ==> advanced[task] == cursor[task]
    ensures Moved(log, cursor, seen + {task},
                  advanced[task := Raised(Position(cursor, task), Fresh(log, cursor, task))])
  {
    hide Fresh;
    hide Raised;
    hide Position;
  }

  /** The worklist: it starts with the named streams and grows by the subtasks they announce. */
  method Collect(log: Log, taskIds: seq<string>, cursor: SeqCursor)
      returns (envelopes: seq<Envelope>, advanced: SeqCursor)
    requires Streams(log)
    ensures Collected(log, cursor, (set t | t in taskIds), envelopes, advanced)
  {
    hide *;
    var pending, seen := taskIds, {};
    envelopes, advanced := [], cursor;
    ghost var roots := set t | t in taskIds;
    ghost var known := Known(log, taskIds);
    WalkStarts(log, cursor, taskIds);
    RootsAreKnown(log, taskIds);
    while pending != []
      invariant Walking(log, cursor, roots, seen, pending)
      invariant Grouped(log, cursor, seen, envelopes)
      invariant Moved(log, cursor, seen, advanced)
      invariant forall t :: t in pending ==> t in known
      decreases |known - seen|, |pending|
    {
      var task := pending[0];
      if task in seen {
        SkipSeen(log, cursor, roots, seen, pending);
        pending := pending[1..];
        continue;
      }
      VisitNew(log, cursor, roots, seen, pending);
      GroupOne(log, cursor, seen, envelopes, task);
      MoveOne(log, cursor, seen, advanced, task);
      FewerUnread(known, seen, task);
      seen := seen + {task};
      AnnouncedAreKnown(log, cursor, taskIds, task, seen);
      var more, ids;
      more, advanced, ids := ReadStream(log, task, cursor, advanced, seen);
      envelopes := envelopes + more;
      pending := pending[1..] + ids;
    }
    WalkEnds(log, cursor, roots, seen);
    CollectedAt(log, cursor, roots, seen, envelopes, advanced);
  }

  lemma CollectedAt(log: Log, cursor: SeqCursor, roots: set<string>, seen: set<string>, envelopes: seq<Envelope>,
                    advanced: SeqCursor)
    requires Reached(log, cursor, roots, seen) && Grouped(log, cursor, seen, envelopes)
        && Moved(log, cursor, seen, advanced)
    ensures Collected(log, cursor, roots, envelopes, advanced)
  {
  }

  lemma FewerUnread(known: set<string>, seen: set<string>, task: string)
    requires task in known && task !in seen
    ensures |known - (seen + {task})| < |known - seen|
  {
    assert known - seen == known - (seen + {task}) + {task};
  }

  lemma RootsAreKnown(log: Log, taskIds: seq<string>)
    ensures forall t :: t in taskIds ==> t in Known(log, taskIds)
  {
  }

  lemma AnnouncedAreKnown(log: Log, cursor: SeqCursor, taskIds: seq<string>, task: string, seen: set<string>)
    ensures forall u :: u in Announced(Fresh(log, cursor, task), seen) ==> u in Known(log, taskIds)
  {
    forall u | u in Announced(Fresh(log, cursor, task), seen) ensures u in Known(log, taskIds) {
      var env :| env in Fresh(log, cursor, task) && SpawnOf(env) == Some(u);
      assert env in Stream(log, task);
    }
  }

  /** The inner loop: one stream's events, its cursor value, and the subtasks it announces. */
  method ReadStream(log: Log, task: string, cursor: SeqCursor, before: SeqCursor, seen: set<string>)
      returns (envelopes: seq<Envelope>, advanced: SeqCursor, ids: seq<string>)
    requires (task in before <==> task in cursor) && (task in cursor ==> before[task] == cursor[task])
    ensures envelopes == Fresh(log, cursor, task)
    ensures advanced == before[task := Raised(Position(cursor, task), Fresh(log, cursor, task))]
    ensures ids == Announced(Fresh(log, cursor, task), seen)
  {
    hide Fresh;
    hide SpawnOf;
    hide Raised;
    hide Announced;
    var events := Fresh(log, cursor, task);
    ghost var start := Position(cursor, task);
    envelopes, advanced, ids := [], before, [];
    NothingYet(start, seen);
    for i := 0 to |events|
      invariant envelopes == events[..i]
      invariant advanced == if i == 0 then before else before[task := Raised(start, events[..i])]
      invariant Position(advanced, task) == Raised(start, events[..i])
      invariant ids == Announced(events[..i], seen)
    {
      var env := events[i];
      OneMore(start, events, i, seen);
      envelopes := envelopes + [env];
      var had := Position(advanced, task);
      advanced := advanced[task := if had < env.seqNo then env.seqNo else had];
      if SpawnOf(env).Some? && SpawnOf(env).value !in seen {
        ids := ids + [SpawnOf(env).value];
      }
    }
    assert events[..|events|] == events;
    if task !in advanced { advanced := advanced[task := Position(cursor, task)]; }
  }

  lemma NothingYet(value: int, seen: set<string>)
    ensures Raised(value, []) == value && Announced([], seen) == []
  {
  }

  lemma OneMore(value: int, events: seq<Envelope>, i: nat, seen: set<string>)
    requires i < |events|
    ensures var before := Raised(value, events[..i]);
            Raised(value, events[..i + 1]) == if before < events[i].seqNo then events[i].seqNo else before
    ensures Announced(events[..i + 1], seen)
         == Announced(events[..i], seen)
            + if SpawnOf(events[i]).Some? && SpawnOf(events[i]).value !in seen then [SpawnOf(events[i]).value] else []
  {
    assert events[..i + 1][..i] == events[..i];
  }

  // ---------------------------------------------------------------------------
  // Polls
  // ---------------------------------------------------------------------------

  /** One poll: the streams as it read them, the session's own streams, and the cursor in and out. */
  datatype Poll = Poll(log: Log, streams: set<string>, cursor: SeqCursor, events: seq<Envelope>, advanced: SeqCursor)

  ghost predicate Answered(p: Poll) {
    && Reached(p.log, p.cursor, p.streams + p.cursor.Keys, p.advanced.Keys)
    && Grouped(p.log, p.cursor, p.advanced.Keys, p.events)
    && Moved(p.log, p.cursor, p.advanced.Keys, p.advanced)
  }

  /** The session's streams first, then every other task the cursor already knows. */
  method RawEvents(log: Log, streams: seq<string>, parsed: SeqCursor, keys: seq<string>)
      returns (envelopes: seq<Envelope>, advanced: SeqCursor)
    requires Streams(log)
    requires forall t :: t in keys <==> t in parsed
    ensures Answered(Poll(log, (set t | t in streams), parsed, envelopes, advanced))
  {
    hide Reached;
    hide Grouped;
    var taskIds := streams;
    for i := 0 to |keys|
      invariant forall t :: t in taskIds <==> t in streams || t in keys[..i]
    {
      assert keys[..i + 1] == keys[..i] + [keys[i]];
      if keys[i] !in streams { taskIds := taskIds + [keys[i]]; }
    }
    assert keys[..|keys|] == keys;
    envelopes, advanced := Collect(log, taskIds, parsed);
    ghost var roots := set t | t in taskIds;
    assert roots == (set t | t in streams) + parsed.Keys;
    VisitedIsAdvanced(log, parsed, roots, envelopes, advanced);
  }

  /** When the cursor's own tasks are among the roots, the tasks visited are those of the new cursor. */
  lemma VisitedIsAdvanced(log: Log, cursor: SeqCursor, roots: set<string>, envelopes: seq<Envelope>,
                          advanced: SeqCursor)
    requires Collected(log, cursor, roots, envelopes, advanced) && cursor.Keys <= roots
    ensures Reached(log, cursor, roots, advanced.Keys)
    ensures Grouped(log, cursor, advanced.Keys, envelopes) && Moved(log, cursor, advanced.Keys, advanced)
  {
    hide Reached;
    hide Grouped;
    var visited :| Reached(log, cursor, roots, visited) && Grouped(log, cursor, visited, envelopes)
                   && Moved(log, cursor, visited, advanced);
    ReachesRoots(log, cursor, roots, visited);
    assert advanced.Keys == visited;
  }

  lemma ReachesRoots(log: Log, cursor: SeqCursor, roots: set<string>, tasks: set<string>)
    requires Reached(log, cursor, roots, tasks)
    ensures roots <= tasks
  {
  }

  /** Streams are append-only. */
  ghost predicate Grew(before: Log, after: Log) {
    forall t :: Stream(before, t) <= Stream(after, t)
  }

  /** A client that starts with no cursor and hands back each one it is given. */
  ghost predicate Polling(polls: seq<Poll>) {
    && (forall i :: 0 <= i < |polls| ==> Streams(polls[i].log) && Answered(polls[i]))
    && (polls != [] ==> polls[0].cursor == map[])
    && (forall i :: 0 < i < |polls| ==>
          && polls[i].cursor == polls[i - 1].advanced
          && Grew(polls[i - 1].log, polls[i].log)
          && polls[i - 1].streams <= polls[i].streams)
  }

  /** Everything the polls returned of one stream. */
  function Returned(polls: seq<Poll>, task: string): seq<Envelope> {
    if polls == [] then []
    else Returned(polls[..|polls| - 1], task) + Filter(OfTask(task), polls[|polls| - 1].events)
  }

  /** The cursor stands at the end of every stream it covers. */
  ghost predicate AtEnd(log: Log, cursor: SeqCursor) {
    forall t :: t in cursor ==> cursor[t] == Raised(-1, Stream(log, t))
  }

  lemma {:induction false} RaisedConcat(value: int, a: seq<Envelope>, b: seq<Envelope>)
    ensures Raised(value, a + b) == Raised(Raised(value, a), b)
  {
    if b == [] {
      assert a + b == a;
    } else {
      assert (a + b)[..|a + b| - 1] == a + b[..|b| - 1];
      RaisedConcat(value, a, b[..|b| - 1]);
    }
  }

  lemma {:induction false} RaisedBounds(value: int, events: seq<Envelope>)
    ensures value <= Raised(value, events)
    ensures forall env :: env in events ==> env.seqNo <= Raised(value, events)
    ensures Raised(value, events) == value || exists env :: env in events && env.seqNo == Raised(value, events)
  {
    if events != [] {
      var front, last := events[..|events| - 1], events[|events| - 1];
      assert events == front + [last];
      RaisedBounds(value, front);
    }
  }

  /** On a grown stream, what a cursor at the old end reads is what was appended. */
  lemma FreshIsTheRest(old0: seq<Envelope>, added: seq<Envelope>, task: string)
    requires IsStream(task, old0 + added)
    ensures Replay.EventsAfter(old0 + added, Some(Raised(-1, old0))) == added
  {
    hide IsStream;
    var end := Raised(-1, old0);
    var past := Replay.PastSeq(Some(end));
    RaisedBounds(-1, old0);
    OldBeforeNew(old0, added, task);
    FilterConcat(past, old0, added);
    FilterNone(past, old0);
    FilterAll(past, added);
  }

  lemma OldBeforeNew(old0: seq<Envelope>, added: seq<Envelope>, task: string)
    requires IsStream(task, old0 + added)
    ensures forall o, n :: o in old0 && n in added ==> o.seqNo < n.seqNo
  {
    forall o, n | o in old0 && n in added ensures o.seqNo < n.seqNo {
      var i :| 0 <= i < |old0| && old0[i] == o;
      var j :| 0 <= j < |added| && added[j] == n;
      assert (old0 + added)[i] == o && (old0 + added)[|old0| + j] == n;
    }
  }

  /** What one poll reads of one stream, given that its cursor stood at the end of the streams it knew. */
  lemma FreshSplits(before: Log, after: Log, cursor: SeqCursor, task: string)
    requires Streams(after) && AtEnd(before, cursor) && Grew(before, after)
    ensures Stream(after, task) == (if task in cursor then Stream(before, task) else []) + Fresh(after, cursor, task)
    ensures Raised(Position(cursor, task), Fresh(after, cursor, task)) == Raised(-1, Stream(after, task))
  {
    var now := Stream(after, task);
    if task in cursor {
      var was := Stream(before, task);
      var added := now[|was|..];
      assert now == was + added;
      FreshIsTheRest(was, added, task);
      RaisedConcat(-1, was, added);
    } else {
      FilterAll(Replay.PastSeq(None), now);
    }
  }

  /** The tasks of a cursor are exactly those reachable by any spawn marker of the streams. */
  lemma ReachedGrows(before: Log, after: Log, streams0: set<string>, streams1: set<string>,
                     cursor: SeqCursor, tasks: set<string>)
    requires Streams(after) && AtEnd(before, cursor) && Grew(before, after)
    requires Reached(before, map[], streams0, cursor.Keys) && streams0 <= streams1
    requires Reached(after, cursor, streams1 + cursor.Keys, tasks)
    ensures Reached(after, map[], streams1, tasks)
  {
    hide Closed;
    hide Stream;
    hide AtEnd;
    ClosedGrows(before, after, cursor, tasks);
    forall others | streams1 <= others && Closed(after, map[], others) ensures tasks <= others {
      ClosedShrinks(before, after, cursor, others);
      assert cursor.Keys <= others;
    }
  }

  lemma ClosedGrows(before: Log, after: Log, cursor: SeqCursor, tasks: set<string>)
    requires Streams(after) && AtEnd(before, cursor) && Grew(before, after)
    requires Closed(before, map[], cursor.Keys) && Closed(after, cursor, tasks) && cursor.Keys <= tasks
    ensures Closed(after, map[], tasks)
  {
    WholeIsFresh(before);
    WholeIsFresh(after);
    hide SpawnOf;
    hide Fresh;
    hide Stream;
    forall t, env | t in tasks && env in Fresh(after, map[], t) && SpawnOf(env).Some?
      ensures SpawnOf(env).value in tasks
    {
      FreshSplits(before, after, cursor, t);
      if env !in Fresh(after, cursor, t) {
        assert t in cursor && env in Fresh(before, map[], t);
      }
    }
  }

  lemma ClosedShrinks(before: Log, after: Log, cursor: SeqCursor, tasks: set<string>)
    requires Grew(before, after) && Closed(after, map[], tasks)
    ensures Closed(before, map[], tasks) && Closed(after, cursor, tasks)
  {
    hide SpawnOf;
    WholeIsFresh(before);
    WholeIsFresh(after);
    assert forall t, env :: env in Fresh(after, cursor, t) ==> env in Stream(after, t);
  }

  lemma WholeIsFresh(log: Log)
    ensures forall t :: Fresh(log, map[], t) == Stream(log, t)
  {
    forall t ensures Fresh(log, map[], t) == Stream(log, t) {
      FilterAll(Replay.PastSeq(None), Stream(log, t));
    }
  }

  /** The first poll. */
  lemma FirstPoll(p: Poll)
    requires Streams(p.log) && Answered(p) && p.cursor == map[]
    ensures AtEnd(p.log, p.advanced) && Reached(p.log, map[], p.streams, p.advanced.Keys)
    ensures forall t :: Filter(OfTask(t), p.events) == if t in p.advanced then Stream(p.log, t) else []
  {
    hide Reached;
    hide Raised;
    WholeIsFresh(p.log);
    hide Fresh;
    hide Stream;
    assert p.streams + p.cursor.Keys == p.streams;
  }

  /** One more poll. */
  lemma NextPoll(before: Log, streams0: set<string>, p: Poll)
    requires Streams(p.log) && Answered(p) && Grew(before, p.log) && streams0 <= p.streams
    requires AtEnd(before, p.cursor) && Reached(before, map[], streams0, p.cursor.Keys)
    ensures AtEnd(p.log, p.advanced) && Reached(p.log, map[], p.streams, p.advanced.Keys)
    ensures forall t :: (if t in p.cursor then Stream(before, t) else []) + Filter(OfTask(t), p.events)
                     == if t in p.advanced then Stream(p.log, t) else []
  {
    ReachedGrows(before, p.log, streams0, p.streams, p.cursor, p.advanced.Keys);
    ReachesRoots(p.log, p.cursor, p.streams + p.cursor.Keys, p.advanced.Keys);
    forall t | true
      ensures Stream(p.log, t) == (if t in p.cursor then Stream(before, t) else []) + Fresh(p.log, p.cursor, t)
      ensures Raised(Position(p.cursor, t), Fresh(p.log, p.cursor, t)) == Raised(-1, Stream(p.log, t))
    {
      FreshSplits(before, p.log, p.cursor, t);
    }
    hide Reached;
    hide Raised;
    hide Fresh;
    hide Stream;
    hide Streams;
    hide Grew;
    assert p.cursor.Keys <= p.advanced.Keys;
  }

  /** Polls partition the log: fed back its own cursors, a client is returned every event of every
      stream reachable from the session's streams exactly once, and nothing of any other. */
  lemma {:induction false} PollsPartitionTheLog(polls: seq<Poll>)
    requires Polling(polls) && polls != []
    ensures var last := polls[|polls| - 1];
            && AtEnd(last.log, last.advanced)
            && Reached(last.log, map[], last.streams, last.advanced.Keys)
            && forall t :: Returned(polls, t) == if t in last.advanced then Stream(last.log, t) else []
  {
    hide Answered;
    hide Reached;
    hide AtEnd;
    hide Streams;
    hide Grew;
    var front, last := polls[..|polls| - 1], polls[|polls| - 1];
    if front == [] {
      FirstPoll(last);
      assert forall t :: Returned(front, t) == [];
    } else {
      PollsPartitionTheLog(front);
      var previous := front[|front| - 1];
      assert previous == polls[|polls| - 2];
      NextPoll(previous.log, previous.streams, last);
    }
  }

  /** So every subtask whose card is opened in a stream the polls return, the session's own or that of
      another subtask, has its whole stream returned too. */
  lemma CardsAreTraced(polls: seq<Poll>, task: string, env: Envelope, id: string)
    requires Polling(polls) && polls != [] && id != ""
    requires env in Returned(polls, task)
    requires exists e :: e in RootEvents(env.payload) && e.SubtaskStarted? && e.subtaskId == id
    ensures Returned(polls, id) == Stream(polls[|polls| - 1].log, id)
  {
    PollsPartitionTheLog(polls);
    SpawnsShowCards(env, id);
    var last := polls[|polls| - 1];
    WholeIsFresh(last.log);
    assert task in last.advanced && env in Fresh(last.log, map[], task);
    hide Returned;
    hide SpawnOf;
    hide RootEvents;
    hide Fresh;
    hide Polling;
    hide AtEnd;
    assert id in last.advanced.Keys;
  }
}
