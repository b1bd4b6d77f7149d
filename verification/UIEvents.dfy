/** The UI-event wire vocabulary: the frames the server sends and the client folds. */
module UIEvents {
  import opened Collections

  datatype TurnStatus =
    | AwaitingInput
    | TurnCompleted
    | TurnCancelled
    | TurnFailedForGood
    | TurnInterrupted
    | TurnFailedResumable

  datatype DeltaKind = TextDelta | ThinkingDelta

  /** The payload of one frame. Bodies the fold does not interpret are strings. */
  datatype Event =
    | UserMessage(content: string, images: seq<string>)
    | AssistantText(text: string)
    | ThinkingText(text: string)
    | RecallText(text: string)
    | ToolCall(callId: string, toolName: string, args: string, ofSubtask: Option<string>)
    | ToolResult(callId: string, success: bool, summary: string, output: string)
    | MemoryOp(callId: string, op: string, name: string)
    | SkillActivated(skill: string)
    | TodoUpdate(todos: seq<string>)
    | SubtaskStarted(subtaskId: string, agentName: string, goal: string)
    | SubtaskFinished(subtaskId: string, outcome: string, summary: string)
    | QuestionAsked(questionId: string, reason: string, questions: seq<string>)
    | QuestionAnswered(questionId: string)
    | QuestionWithdrawn(questionId: string)
    | Compaction(replacedCount: int)
    | TurnStarted
    | TurnFinished(status: TurnStatus, detail: Option<string>)
    | ErrorNotice(message: string)
    | Rewind(targetSeq: int)
    | Delta(callId: string, kind: DeltaKind, text: string, index: int)
    | LlmRetry(callId: string)
    | ReplayDone
    | SessionMeta(title: string)
    | Unrecognised(typeName: string)

  /** One frame: `seqNo` is `None` for every frame the log does not imply. */
  datatype Frame = Frame(seqNo: Option<nat>, task: Option<string>, ts: Option<int>, event: Event)

  predicate IsDurable(f: Frame) {
    f.seqNo.Some?
  }

  /** A streamed chunk, which a full queue may lose. */
  predicate IsDelta(f: Frame) {
    f.event.Delta?
  }

  function DurableTest(): Frame -> bool {
    f => IsDurable(f)
  }

  /** The frames that carry a `seqNo`, in order. */
  function Durable(frames: seq<Frame>): seq<Frame> {
    Filter(DurableTest(), frames)
  }

  lemma DurableConcat(a: seq<Frame>, b: seq<Frame>)
    ensures Durable(a + b) == Durable(a) + Durable(b)
  {
    FilterConcat(DurableTest(), a, b);
  }

  // ---------------------------------------------------------------------------
  // Deleting deltas
  // ---------------------------------------------------------------------------

  /** `ys` is `xs` with some of its delta frames deleted. */
  ghost predicate Thinned(xs: seq<Frame>, ys: seq<Frame>) {
    if xs == [] then ys == []
    else
      var x := xs[|xs| - 1];
      || (ys != [] && ys[|ys| - 1] == x && Thinned(xs[..|xs| - 1], ys[..|ys| - 1]))
      || (IsDelta(x) && Thinned(xs[..|xs| - 1], ys))
  }

  lemma ThinnedKeep(xs: seq<Frame>, ys: seq<Frame>, x: Frame)
    requires Thinned(xs, ys)
    ensures Thinned(xs + [x], ys + [x])
    ensures IsDelta(x) ==> Thinned(xs + [x], ys)
  {
    assert (xs + [x])[..|xs|] == xs && (ys + [x])[..|ys|] == ys;
  }

  lemma {:induction false} ThinnedEvict(xs: seq<Frame>, ys: seq<Frame>, i: nat)
    requires Thinned(xs, ys) && i < |ys| && IsDelta(ys[i])
    ensures Thinned(xs, ys[..i] + ys[i + 1..])
  {
    var x, front := xs[|xs| - 1], xs[..|xs| - 1];
    var gone := ys[..i] + ys[i + 1..];
    if ys[|ys| - 1] == x && Thinned(front, ys[..|ys| - 1]) {
      if i == |ys| - 1 {
        assert gone == ys[..|ys| - 1];
      } else {
        ThinnedEvict(front, ys[..|ys| - 1], i);
        assert gone[..|gone| - 1] == ys[..|ys| - 1][..i] + ys[..|ys| - 1][i + 1..];
      }
    } else {
      ThinnedEvict(front, ys, i);
    }
  }

  /** Any prefix of a thinned sequence is a thinned prefix. */
  lemma {:induction false} ThinnedPrefix(xs: seq<Frame>, ys: seq<Frame>, j: nat) returns (k: nat)
    requires Thinned(xs, ys) && j <= |ys|
    ensures k <= |xs| && Thinned(xs[..k], ys[..j])
  {
    if j == |ys| {
      k := |xs|;
      assert xs[..k] == xs && ys[..j] == ys;
    } else {
      var x, front := xs[|xs| - 1], xs[..|xs| - 1];
      if ys[|ys| - 1] == x && Thinned(front, ys[..|ys| - 1]) {
        k := ThinnedPrefix(front, ys[..|ys| - 1], j);
        assert ys[..|ys| - 1][..j] == ys[..j];
      } else {
        k := ThinnedPrefix(front, ys, j);
      }
      assert front[..k] == xs[..k];
    }
  }

  ghost predicate DeltasAreSynthetic(xs: seq<Frame>) {
    forall x :: x in xs && IsDelta(x) ==> !IsDurable(x)
  }

  function KeptTest(): Frame -> bool {
    (f: Frame) => !IsDelta(f)
  }

  /** Thinning keeps every frame that is not a delta, in order. */
  lemma {:induction false} ThinnedKeepsTheRest(xs: seq<Frame>, ys: seq<Frame>)
    requires Thinned(xs, ys)
    ensures Filter(KeptTest(), xs) == Filter(KeptTest(), ys)
  {
    if xs != [] {
      var x, front := xs[|xs| - 1], xs[..|xs| - 1];
      if ys != [] && ys[|ys| - 1] == x && Thinned(front, ys[..|ys| - 1]) {
        ThinnedKeepsTheRest(front, ys[..|ys| - 1]);
      } else {
        ThinnedKeepsTheRest(front, ys);
      }
    }
  }

  lemma {:induction false} ThinnedKeepsDurable(xs: seq<Frame>, ys: seq<Frame>)
    requires Thinned(xs, ys) && DeltasAreSynthetic(xs)
    ensures Durable(xs) == Durable(ys)
  {
    if xs != [] {
      var x, front := xs[|xs| - 1], xs[..|xs| - 1];
      assert forall f :: f in front ==> f in xs;
      if ys != [] && ys[|ys| - 1] == x && Thinned(front, ys[..|ys| - 1]) {
        ThinnedKeepsDurable(front, ys[..|ys| - 1]);
      } else {
        assert x in xs;
        ThinnedKeepsDurable(front, ys);
      }
    }
  }
}
