/** Re-deriving a session's conversation from the log (noeta/agent/host/hub.py). */
module Replay {
  import opened Collections
  import opened UIEvents
  import opened Translator

  /** The stream a forked session inherits from, and the seq its own path replaces. */
  datatype Fork = Fork(source: seq<Envelope>, branchedAt: Option<nat>)

  function PastSeq(after: Option<int>): Envelope -> bool {
    (env: Envelope) => after.Some? ==> env.seqNo > after.value
  }

  /** The engine's read: a stream past a seq, or all of it. */
  function EventsAfter(log: seq<Envelope>, after: Option<int>): seq<Envelope> {
    Filter(PastSeq(after), log)
  }

  /** An absent cursor and the cursor 0 both ask for a full replay. */
  function ReplayFloor(since: Option<nat>): Option<nat> {
    if since.Some? && since.value > 0 then since else None
  }

  function Inherited(env: Envelope, task: string): seq<Frame> {
    var frames := Translate(env);
    seq(|frames|, i requires 0 <= i < |frames| => frames[i].(seqNo := None, task := Some(task)))
  }

  function InheritedFrames(source: seq<Envelope>, task: string): seq<Frame> {
    if source == [] then []
    else InheritedFrames(source[..|source| - 1], task) + Inherited(source[|source| - 1], task)
  }

  predicate BeforeBranch(fork: Fork, env: Envelope) {
    fork.branchedAt.Some? ==> env.seqNo < fork.branchedAt.value
  }

  function BeforeBranchTest(fork: Fork): Envelope -> bool {
    (env: Envelope) => BeforeBranch(fork, env)
  }

  /** What a fork inherits: its source stream up to the branch point, exclusive. */
  function InheritedPrefix(fork: Option<Fork>, task: string): seq<Frame> {
    if fork.None? then []
    else InheritedFrames(Filter(BeforeBranchTest(fork.value), fork.value.source), task)
  }

  function SubtaskFrames(log: seq<Envelope>, subtaskId: string, task: string): seq<Frame> {
    if log == [] then []
    else SubtaskFrames(log[..|log| - 1], subtaskId, task) + TranslateSubtask(log[|log| - 1], subtaskId, task)
  }

  /** One envelope's frames; a full replay puts the stream of a spawned subtask behind them. */
  function Spliced(env: Envelope, subtasks: map<string, seq<Envelope>>, task: string, full: bool): seq<Frame> {
    Translate(env)
    + if full && SpawnOf(env).Some? && SpawnOf(env).value in subtasks
      then SubtaskFrames(subtasks[SpawnOf(env).value], SpawnOf(env).value, task) else []
  }

  function OwnFrames(log: seq<Envelope>, subtasks: map<string, seq<Envelope>>, task: string, full: bool): seq<Frame> {
    if log == [] then []
    else OwnFrames(log[..|log| - 1], subtasks, task, full) + Spliced(log[|log| - 1], subtasks, task, full)
  }

  function ReplayFrames(task: string, own: seq<Envelope>, subtasks: map<string, seq<Envelope>>, fork: Option<Fork>,
                        since: Option<nat>): seq<Frame>
  {
    var after := ReplayFloor(since);
    (if after.None? then InheritedPrefix(fork, task) else [])
    + OwnFrames(EventsAfter(own, after), subtasks, task, after.None?)
  }

  // ---------------------------------------------------------------------------
  // The loops
  // ---------------------------------------------------------------------------

  ghost predicate IsStreamOrder(log: seq<Envelope>) {
    forall i, j :: 0 <= i < j < |log| ==> log[i].seqNo < log[j].seqNo
  }

  /** The inherited-prefix loop stops at the first envelope at or past the branch point. */
  method CollectInherited(fork: Fork, task: string) returns (out: seq<Frame>)
    requires IsStreamOrder(fork.source)
    ensures out == InheritedPrefix(Some(fork), task)
  {
    out := [];
    var i := 0;
    while i < |fork.source| && BeforeBranch(fork, fork.source[i])
      invariant 0 <= i <= |fork.source|
      invariant forall k :: 0 <= k < i ==> BeforeBranch(fork, fork.source[k])
      invariant out == InheritedFrames(fork.source[..i], task)
    {
      assert fork.source[..i + 1][..i] == fork.source[..i];
      out := out + Inherited(fork.source[i], task);
      i := i + 1;
    }
    CutIsFilter(fork, i);
  }

  lemma CutIsFilter(fork: Fork, i: nat)
    requires IsStreamOrder(fork.source) && i <= |fork.source|
    requires forall k :: 0 <= k < i ==> BeforeBranch(fork, fork.source[k])
    requires i < |fork.source| ==> !BeforeBranch(fork, fork.source[i])
    ensures Filter(BeforeBranchTest(fork), fork.source) == fork.source[..i]
  {
    assert fork.source == fork.source[..i] + fork.source[i..];
    FilterConcat(BeforeBranchTest(fork), fork.source[..i], fork.source[i..]);
    FilterAll(BeforeBranchTest(fork), fork.source[..i]);
    FilterNone(BeforeBranchTest(fork), fork.source[i..]);
  }

  /** The replay of a session: inherited history, then its one own stream. */
  method CollectReplay(task: string, own: seq<Envelope>, subtasks: map<string, seq<Envelope>>, fork: Option<Fork>,
                       since: Option<nat>) returns (out: seq<Frame>)
    requires fork.Some? ==> IsStreamOrder(fork.value.source)
    ensures out == ReplayFrames(task, own, subtasks, fork, since)
  {
    var after := if since.Some? && since.value > 0 then since else None;
    out := [];
    if after.None? && fork.Some? {
      out := CollectInherited(fork.value, task);
    }
    var frames := CollectOwn(EventsAfter(own, after), subtasks, task, after.None?);
    out := out + frames;
  }

  method CollectOwn(events: seq<Envelope>, subtasks: map<string, seq<Envelope>>, task: string, full: bool)
      returns (out: seq<Frame>)
    ensures out == OwnFrames(events, subtasks, task, full)
  {
    out := [];
    for i := 0 to |events|
      invariant out == OwnFrames(events[..i], subtasks, task, full)
    {
      assert events[..i + 1][..i] == events[..i];
      var frames := Translate(events[i]);
      if full && SpawnOf(events[i]).Some? {
        var id := SpawnOf(events[i]).value;
        if id in subtasks {
          var inner := CollectSubtask(subtasks[id], id, task);
          frames := frames + inner;
        }
      }
      out := out + frames;
    }
    assert events[..|events|] == events;
  }

  method CollectSubtask(log: seq<Envelope>, subtaskId: string, task: string) returns (out: seq<Frame>)
    ensures out == SubtaskFrames(log, subtaskId, task)
  {
    out := [];
    for i := 0 to |log|
      invariant out == SubtaskFrames(log[..i], subtaskId, task)
    {
      assert log[..i + 1][..i] == log[..i];
      out := out + TranslateSubtask(log[i], subtaskId, task);
    }
    assert log[..|log|] == log;
  }

  // ---------------------------------------------------------------------------
  // Replay is re-derivation
  // ---------------------------------------------------------------------------

  lemma {:induction false} SubtasksAreSynthetic(log: seq<Envelope>, subtaskId: string, task: string)
    ensures Durable(SubtaskFrames(log, subtaskId, task)) == []
  {
    if log != [] {
      SubtasksAreSynthetic(log[..|log| - 1], subtaskId, task);
      var last := TranslateSubtask(log[|log| - 1], subtaskId, task);
      FilterNone(DurableTest(), last);
      DurableConcat(SubtaskFrames(log[..|log| - 1], subtaskId, task), last);
    }
  }

  lemma {:induction false} InheritedIsSynthetic(source: seq<Envelope>, task: string)
    ensures Durable(InheritedFrames(source, task)) == []
  {
    if source != [] {
      InheritedIsSynthetic(source[..|source| - 1], task);
      FilterNone(DurableTest(), Inherited(source[|source| - 1], task));
      DurableConcat(InheritedFrames(source[..|source| - 1], task), Inherited(source[|source| - 1], task));
    }
  }

  lemma SplicedDurable(env: Envelope, subtasks: map<string, seq<Envelope>>, task: string, full: bool)
    ensures Durable(Spliced(env, subtasks, task, full)) == Translate(env)
  {
    var frames := Translate(env);
    FilterAll(DurableTest(), frames);
    if full && SpawnOf(env).Some? && SpawnOf(env).value in subtasks {
      var inner := SubtaskFrames(subtasks[SpawnOf(env).value], SpawnOf(env).value, task);
      SubtasksAreSynthetic(subtasks[SpawnOf(env).value], SpawnOf(env).value, task);
      DurableConcat(frames, inner);
    } else {
      assert Spliced(env, subtasks, task, full) == frames;
    }
  }

  lemma {:induction false} OwnDurable(log: seq<Envelope>, subtasks: map<string, seq<Envelope>>, task: string,
                                      full: bool)
    ensures Durable(OwnFrames(log, subtasks, task, full)) == AllFrames(log)
  {
    if log != [] {
      var front, env := log[..|log| - 1], log[|log| - 1];
      OwnDurable(front, subtasks, task, full);
      SplicedDurable(env, subtasks, task, full);
      DurableConcat(OwnFrames(front, subtasks, task, full), Spliced(env, subtasks, task, full));
    }
  }

  /** The durable part of any replay is exactly the frames of the session's own envelopes past the
      floor, in order: what is spliced around them carries no seq. */
  lemma ReplayIsRederivation(task: string, own: seq<Envelope>, subtasks: map<string, seq<Envelope>>,
                             fork: Option<Fork>, since: Option<nat>)
    ensures Durable(ReplayFrames(task, own, subtasks, fork, since)) == AllFrames(EventsAfter(own, ReplayFloor(since)))
  {
    var after := ReplayFloor(since);
    var inherited := if after.None? then InheritedPrefix(fork, task) else [];
    if after.None? && fork.Some? {
      InheritedIsSynthetic(Filter(BeforeBranchTest(fork.value), fork.value.source), task);
    }
    OwnDurable(EventsAfter(own, after), subtasks, task, after.None?);
    DurableConcat(inherited, OwnFrames(EventsAfter(own, after), subtasks, task, after.None?));
  }

  // ---------------------------------------------------------------------------
  // What a replay holds besides
  // ---------------------------------------------------------------------------

  /** The cut is exclusive: of an ordered source exactly the envelopes with a seq below the branch point are
      inherited, and without a branch point all of them. */
  lemma InheritsUpToTheBranch(source: seq<Envelope>, branchedAt: Option<nat>, k: nat, task: string)
    requires forall i, j :: 0 <= i < j < |source| ==> source[i].seqNo < source[j].seqNo
    requires k <= |source|
    requires match branchedAt
             case None => k == |source|
             case Some(b) =>
               (forall i :: 0 <= i < k ==> source[i].seqNo < b) && (k < |source| ==> source[k].seqNo >= b)
    ensures InheritedPrefix(Some(Fork(source, branchedAt)), task) == InheritedFrames(source[..k], task)
  {
    CutIsFilter(Fork(source, branchedAt), k);
  }

  /** Inherited frames are the source's own, in order: same event, same clock, no seq, the fork's stream. */
  lemma {:induction false} InheritedIsRestamped(source: seq<Envelope>, task: string)
    ensures var all, inherited := AllFrames(source), InheritedFrames(source, task);
            && |inherited| == |all|
            && forall i :: 0 <= i < |all| ==> inherited[i] == Frame(None, Some(task), all[i].ts, all[i].event)
  {
    if source != [] {
      InheritedIsRestamped(source[..|source| - 1], task);
    }
    hide Translate;
  }

  /** A resumed replay carries nothing without a seq: it is the session's own frames past the cursor. */
  lemma ResumedReplayIsOwn(task: string, own: seq<Envelope>, subtasks: map<string, seq<Envelope>>,
                           fork: Option<Fork>, since: nat)
    requires since > 0
    ensures ReplayFrames(task, own, subtasks, fork, Some(since))
         == AllFrames(Filter((env: Envelope) => env.seqNo > since, own))
  {
    var past := (env: Envelope) => env.seqNo > since;
    SameFilter(PastSeq(Some(since)), past, own);
    OwnWithoutSubtasks(EventsAfter(own, Some(since)), subtasks, task);
    assert ReplayFrames(task, own, subtasks, fork, Some(since))
        == [] + OwnFrames(EventsAfter(own, Some(since)), subtasks, task, false);
  }

  lemma {:induction false} SameFilter<T>(p: T -> bool, q: T -> bool, xs: seq<T>)
    requires forall x :: p(x) <==> q(x)
    ensures Filter(p, xs) == Filter(q, xs)
  {
    if xs != [] {
      SameFilter(p, q, xs[..|xs| - 1]);
    }
  }

  lemma {:induction false} OwnWithoutSubtasks(log: seq<Envelope>, subtasks: map<string, seq<Envelope>>, task: string)
    ensures OwnFrames(log, subtasks, task, false) == AllFrames(log)
  {
    hide Translate;
    if log != [] {
      OwnWithoutSubtasks(log[..|log| - 1], subtasks, task);
      assert Spliced(log[|log| - 1], subtasks, task, false) == Translate(log[|log| - 1]) + [];
    }
  }

  /** And a full replay splices each subtask that has a card in directly behind the frame that opens it. */
  lemma {:induction false} CardsAreSpliced(own: seq<Envelope>, subtasks: map<string, seq<Envelope>>, task: string,
                                           i: nat, card: Frame) returns (before: seq<Frame>, behind: seq<Frame>)
    requires i < |own| && card in Translate(own[i]) && card.event.SubtaskStarted?
    requires card.event.subtaskId != "" && card.event.subtaskId in subtasks
    ensures var id := card.event.subtaskId;
            OwnFrames(own, subtasks, task, true) == before + [card] + SubtaskFrames(subtasks[id], id, task) + behind
  {
    hide Spliced;
    hide SubtaskFrames;
    hide Translate;
    var n := |own| - 1;
    var inner := SubtaskFrames(subtasks[card.event.subtaskId], card.event.subtaskId, task);
    var last := Spliced(own[n], subtasks, task, true);
    if i < n {
      before, behind := CardsAreSpliced(own[..n], subtasks, task, i, card);
      assert before + [card] + inner + behind + last == before + [card] + inner + (behind + last);
      behind := behind + last;
    } else {
      CardIsSpliced(own[i], subtasks, task, card);
      before, behind := OwnFrames(own[..n], subtasks, task, true), [];
      assert before + ([card] + inner) == before + [card] + inner + behind;
    }
  }

  lemma CardIsSpliced(env: Envelope, subtasks: map<string, seq<Envelope>>, task: string, card: Frame)
    requires card in Translate(env) && card.event.SubtaskStarted?
    requires card.event.subtaskId != "" && card.event.subtaskId in subtasks
    ensures var id := card.event.subtaskId;
            Spliced(env, subtasks, task, true) == [card] + SubtaskFrames(subtasks[id], id, task)
  {
    CardSpawns(env, card);
    hide Translate;
    hide SpawnOf;
    hide SubtaskFrames;
  }

  lemma CardSpawns(env: Envelope, card: Frame)
    requires card in Translate(env) && card.event.SubtaskStarted? && card.event.subtaskId != ""
    ensures Translate(env) == [card] && SpawnOf(env) == Some(card.event.subtaskId)
  {
    SpawnsShowCards(env, card.event.subtaskId);
    CardIsAlone(env.payload, card.event.subtaskId);
    hide RootEvents;
    hide SpawnOf;
  }
}
