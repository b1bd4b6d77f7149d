/** The server's per-connection dedup cursor (noeta/agent/api/events.py). */
module Cursors {
  import opened Collections
  import opened UIEvents
  import opened Translator

  datatype CursorState = CursorState(floor: int, seen: map<string, int>)

  function OpenCursor(since: Option<nat>): CursorState {
    CursorState(if since.Some? && since.value > 0 then since.value else -1, map[])
  }

  function KeyOf(f: Frame): string {
    if f.task.Some? then f.task.value else ""
  }

  function LastSeen(c: CursorState, f: Frame): int {
    if KeyOf(f) in c.seen then c.seen[KeyOf(f)] else c.floor
  }

  predicate Accepts(c: CursorState, f: Frame) {
    f.seqNo.None? || f.seqNo.value > LastSeen(c, f)
  }

  function Moved(c: CursorState, f: Frame): CursorState {
    if f.seqNo.Some? && Accepts(c, f) then c.(seen := c.seen[KeyOf(f) := f.seqNo.value]) else c
  }

  class Cursor {
    const floor: int
    var seen: map<string, int>

    function State(): CursorState
      reads this
    {
      CursorState(floor, seen)
    }

    constructor (since: Option<nat>)
      ensures State() == OpenCursor(since)
    {
      floor := if since.Some? && since.value > 0 then since.value else -1;
      seen := map[];
    }

    method Accept(f: Frame) returns (ok: bool)
      modifies this
      ensures ok == Accepts(old(State()), f)
      ensures State() == Moved(old(State()), f)
    {
      if f.seqNo.None? {
        return true;
      }
      var key := if f.task.Some? then f.task.value else "";
      var last := if key in seen then seen[key] else floor;
      if f.seqNo.value <= last {
        return false;
      }
      seen := seen[key := f.seqNo.value];
      ok := true;
    }
  }

  // ---------------------------------------------------------------------------
  // One stream seen through a cursor
  // ---------------------------------------------------------------------------

  function SeqOf(f: Frame): int {
    if f.seqNo.Some? then f.seqNo.value else -1
  }

  /** Where a cursor that stood at `s` stands after `frames`. */
  function CursorAfter(s: int, frames: seq<Frame>): int {
    if frames == [] then s
    else
      var before := CursorAfter(s, frames[..|frames| - 1]);
      var last := SeqOf(frames[|frames| - 1]);
      if last > before then last else before
  }

  /** The durable frames a cursor at `s` lets through. */
  function Admit(s: int, frames: seq<Frame>): seq<Frame> {
    if frames == [] then []
    else
      var last := frames[|frames| - 1];
      Admit(s, frames[..|frames| - 1])
      + if SeqOf(last) > CursorAfter(s, frames[..|frames| - 1]) then [last] else []
  }

  lemma {:induction false} AdmitConcat(s: int, a: seq<Frame>, b: seq<Frame>)
    ensures CursorAfter(s, a + b) == CursorAfter(CursorAfter(s, a), b)
    ensures Admit(s, a + b) == Admit(s, a) + Admit(CursorAfter(s, a), b)
  {
    if b == [] {
      assert a + b == a;
    } else {
      assert (a + b)[..|a + b| - 1] == a + b[..|b| - 1];
      AdmitConcat(s, a, b[..|b| - 1]);
    }
  }

  /** Only the durable frames of a batch matter to what is admitted and to where the cursor ends. */
  lemma {:induction false} AdmitDurable(s: int, frames: seq<Frame>)
    requires s >= -1
    ensures Admit(s, Durable(frames)) == Admit(s, frames)
    ensures CursorAfter(s, Durable(frames)) == CursorAfter(s, frames) >= s
  {
    if frames != [] {
      var front, last := frames[..|frames| - 1], frames[|frames| - 1];
      AdmitDurable(s, front);
      if IsDurable(last) {
        assert Durable(frames)[..|Durable(frames)| - 1] == Durable(front);
      }
    }
  }

  /** A cursor lets nothing through at or below it. */
  lemma {:induction false} AdmitNone(s: int, frames: seq<Frame>)
    requires forall f :: f in frames ==> SeqOf(f) <= s
    ensures Admit(s, frames) == [] && CursorAfter(s, frames) == s
  {
    if frames != [] {
      assert frames[|frames| - 1] in frames;
      AdmitNone(s, frames[..|frames| - 1]);
    }
  }

  /** After a batch the cursor stands at or above all of it, so it admits none of it again. */
  lemma {:induction false} CursorCovers(s: int, frames: seq<Frame>)
    ensures CursorAfter(s, frames) >= s
    ensures forall f :: f in frames ==> SeqOf(f) <= CursorAfter(s, frames)
    ensures Admit(CursorAfter(s, frames), frames) == []
  {
    if frames != [] {
      CursorCovers(s, frames[..|frames| - 1]);
      assert frames == frames[..|frames| - 1] + [frames[|frames| - 1]];
    }
    AdmitNone(CursorAfter(s, frames), frames);
  }

  /** The seq of the `n`-th admitted frame, or -1 before the first. */
  function SeqAt(frames: seq<Frame>, n: nat): int
    requires n <= |frames|
  {
    if n == 0 then -1 else SeqOf(frames[n - 1])
  }

  lemma AdmitOneEnvelope(s: int, env: Envelope)
    requires s >= -1
    ensures s < env.seqNo ==> Admit(s, Translate(env)) == FirstFrame(env)
    ensures s < env.seqNo ==> CursorAfter(s, Translate(env)) == if Translate(env) == [] then s else env.seqNo
    ensures s >= env.seqNo ==> Admit(s, Translate(env)) == [] && CursorAfter(s, Translate(env)) == s
  {
    var frames := Translate(env);
    if s >= env.seqNo {
      AdmitNone(s, frames);
    } else if frames != [] {
      var head, tail := [frames[0]], frames[1..];
      assert frames == head + tail;
      AdmitConcat(s, head, tail);
      assert head[..0] == [];
      assert CursorAfter(s, head) == env.seqNo;
      AdmitNone(env.seqNo, tail);
    }
  }

  ghost predicate Increasing(frames: seq<Frame>) {
    forall i, j :: 0 <= i < j < |frames| ==> SeqOf(frames[i]) < SeqOf(frames[j])
  }

  /** The first frames of a stream carry strictly increasing seqs, those of its envelopes. */
  lemma {:induction false} FirstFramesIncrease(task: string, log: seq<Envelope>)
    requires IsStream(task, log)
    ensures Increasing(FirstFrames(log))
    ensures forall f :: f in FirstFrames(log) ==>
              IsDurable(f) && f.task == Some(task) && log != [] && SeqOf(f) <= log[|log| - 1].seqNo
  {
    if log != [] {
      var front, env := log[..|log| - 1], log[|log| - 1];
      FirstFramesIncrease(task, front);
      assert front != [] ==> front[|front| - 1].seqNo < env.seqNo;
      assert env.taskId == task;
      var f0 := FirstFrames(front);
      assert forall i :: 0 <= i < |f0| ==> f0[i] in f0;
    }
  }

  /** Resuming a stream from the seq of the `p`-th first frame yields exactly the first frames after it. */
  lemma {:induction false} Resume(task: string, log: seq<Envelope>, p: nat)
    requires IsStream(task, log) && p <= |FirstFrames(log)|
    ensures Admit(SeqAt(FirstFrames(log), p), AllFrames(log)) == FirstFrames(log)[p..]
    ensures CursorAfter(SeqAt(FirstFrames(log), p), AllFrames(log)) == SeqAt(FirstFrames(log), |FirstFrames(log)|)
  {
    hide Admit;
    hide CursorAfter;
    hide FirstFrame;
    hide Translate;
    if log == [] {
      AdmitNone(-1, []);
    } else {
      var front, env := log[..|log| - 1], log[|log| - 1];
      if p <= |FirstFrames(front)| {
        Resume(task, front, p);
        ResumeOneMore(task, front, env, p);
      } else {
        ResumeAtEnd(task, log);
      }
    }
  }

  lemma ResumeOneMore(task: string, front: seq<Envelope>, env: Envelope, p: nat)
    requires IsStream(task, front) && (front != [] ==> front[|front| - 1].seqNo < env.seqNo)
    requires p <= |FirstFrames(front)|
    requires Admit(SeqAt(FirstFrames(front), p), AllFrames(front)) == FirstFrames(front)[p..]
    requires CursorAfter(SeqAt(FirstFrames(front), p), AllFrames(front))
        == SeqAt(FirstFrames(front), |FirstFrames(front)|)
    ensures var f := FirstFrames(front) + FirstFrame(env);
            && Admit(SeqAt(f, p), AllFrames(front) + Translate(env)) == f[p..]
            && CursorAfter(SeqAt(f, p), AllFrames(front) + Translate(env)) == SeqAt(f, |f|)
  {
    hide Admit;
    hide CursorAfter;
    hide FirstFrames;
    hide AllFrames;
    var f0 := FirstFrames(front);
    var s, end := SeqAt(f0, p), SeqAt(f0, |f0|);
    FirstFramesIncrease(task, front);
    assert f0 != [] ==> f0[|f0| - 1] in f0;
    AdmitConcat(s, AllFrames(front), Translate(env));
    AdmitOneEnvelope(end, env);
    assert (f0 + FirstFrame(env))[p..] == f0[p..] + FirstFrame(env);
    assert SeqAt(f0 + FirstFrame(env), p) == s;
  }

  lemma ResumeAtEnd(task: string, log: seq<Envelope>)
    requires IsStream(task, log) && log != [] && FirstFrame(log[|log| - 1]) != []
    ensures var f := FirstFrames(log);
            Admit(SeqAt(f, |f|), AllFrames(log)) == [] && CursorAfter(SeqAt(f, |f|), AllFrames(log)) == SeqAt(f, |f|)
  {
    FramesAreStamped(task, log);
    forall f | f in AllFrames(log) ensures SeqOf(f) <= log[|log| - 1].seqNo {
      var i :| 0 <= i < |log| && f.seqNo == Some(log[i].seqNo);
    }
    AdmitNone(log[|log| - 1].seqNo, AllFrames(log));
  }
}
