/** The session status machine (noeta/agent/host/status.py). */
module Status {
  import opened Collections
  import opened Translator

  datatype SessionStatus = Idle | Running | Waiting

  /** The status an envelope implies, `None` for "unchanged". */
  function StatusFor(p: Payload): Option<SessionStatus> {
    match p
    case UserQuestionRequested(_, _, _) => Some(Waiting)
    case UserQuestionWithdrawn(_) => None
    case TaskStarted => Some(Running)
    case TaskWoken => Some(Running)
    case TurnInterruptMark => None
    case TaskSuspended(wakeOn, _, _) =>
      if IsSubtaskBarrier(wakeOn) then Some(Running)
      else if IsQuestionWake(wakeOn) then Some(Waiting)
      else Some(Idle)
    case TaskCancelled => Some(Idle)
    case TaskFailed(_) => Some(Idle)
    case TaskCompleted => Some(Idle)
    case _ => None
  }

  predicate IsTerminal(p: Payload) {
    p.TaskCancelled? || p.TaskFailed? || p.TaskCompleted?
  }

  // The ordered set of terminated tasks, oldest first.

  ghost predicate Distinct(s: seq<string>) {
    forall i, j :: 0 <= i < j < |s| ==> s[i] != s[j]
  }

  function Newest(closed: seq<string>, memory: nat): seq<string> {
    if |closed| > memory then closed[|closed| - memory..] else closed
  }

  predicate IsClosing(closed: seq<string>, env: Envelope) {
    env.taskId !in closed && IsTerminal(env.payload)
  }

  function Close(closed: seq<string>, memory: nat, env: Envelope): seq<string> {
    if IsClosing(closed, env) then Newest(closed + [env.taskId], memory) else closed
  }

  function Reported(closed: seq<string>, env: Envelope): Option<SessionStatus> {
    if env.taskId in closed then None else StatusFor(env.payload)
  }

  function Other(task: string): string -> bool {
    (t: string) => t != task
  }

  function Without(closed: seq<string>, task: string): seq<string> {
    Filter(Other(task), closed)
  }

  lemma {:induction false} WithoutStaysDistinct(closed: seq<string>, task: string)
    requires Distinct(closed)
    ensures Distinct(Without(closed, task))
  {
    if closed != [] {
      var front := closed[..|closed| - 1];
      WithoutStaysDistinct(front, task);
      var kept := Without(front, task);
      forall i | 0 <= i < |kept| ensures kept[i] != closed[|front|] {
        assert kept[i] in front;
      }
    }
  }

  /** The absorbing machine. `closed` is an ordered set: eviction is oldest first. */
  class StatusMachine {
    const memory: nat
    var closed: seq<string>

    ghost predicate Valid()
      reads this
    {
      Distinct(closed) && |closed| <= memory
    }

    constructor (memory: nat)
      ensures Valid() && this.memory == memory && closed == []
    {
      this.memory := memory;
      closed := [];
    }

    method Observe(env: Envelope) returns (status: Option<SessionStatus>)
      requires Valid()
      modifies this
      ensures Valid()
      ensures closed == Close(old(closed), memory, env)
      ensures status == Reported(old(closed), env)
    {
      if env.taskId in closed {
        return None;
      }
      if IsTerminal(env.payload) {
        closed := closed + [env.taskId];
        ghost var grown := closed;
        ghost var dropped := 0;
        while |closed| > memory
          invariant dropped <= |grown| && closed == grown[dropped..]
          invariant |grown| <= memory + 1
          invariant dropped > 0 ==> |closed| == memory
        {
          closed := closed[1..];
          dropped := dropped + 1;
        }
      }
      status := StatusFor(env.payload);
    }

    function IsClosed(task: string): bool
      reads this
    {
      task in closed
    }

    method Forget(task: string)
      requires Valid()
      modifies this
      ensures Valid()
      ensures closed == Without(old(closed), task)
      ensures forall t :: IsClosed(t) <==> t in old(closed) && t != task
    {
      WithoutStaysDistinct(closed, task);
      closed := Without(closed, task);
    }
  }

  // ---------------------------------------------------------------------------
  // Whole runs: every interleaving of envelopes of every task, and forgets
  // ---------------------------------------------------------------------------

  datatype Op = Observed(env: Envelope) | Forgot(task: string)

  function Step(closed: seq<string>, memory: nat, op: Op): seq<string> {
    match op
    case Observed(env) => Close(closed, memory, env)
    case Forgot(task) => Without(closed, task)
  }

  function Run(closed: seq<string>, memory: nat, ops: seq<Op>): seq<string> {
    if ops == [] then closed
    else Step(Run(closed, memory, ops[..|ops| - 1]), memory, ops[|ops| - 1])
  }

  /** How many operations of the run added a task to the remembered set. */
  function Closings(closed: seq<string>, memory: nat, ops: seq<Op>): nat {
    if ops == [] then 0
    else
      var op := ops[|ops| - 1];
      Closings(closed, memory, ops[..|ops| - 1])
      + if op.Observed? && IsClosing(Run(closed, memory, ops[..|ops| - 1]), op.env) then 1 else 0
  }

  lemma {:induction false} RunStaysBounded(closed: seq<string>, memory: nat, ops: seq<Op>)
    requires Distinct(closed) && |closed| <= memory
    ensures Distinct(Run(closed, memory, ops)) && |Run(closed, memory, ops)| <= memory
  {
    if ops != [] {
      RunStaysBounded(closed, memory, ops[..|ops| - 1]);
      var before := Run(closed, memory, ops[..|ops| - 1]);
      if ops[|ops| - 1].Forgot? {
        WithoutStaysDistinct(before, ops[|ops| - 1].task);
      }
    }
  }

  /** Removing another task keeps `x` where it is relative to the tasks behind it. */
  lemma WithoutAround(a: seq<string>, x: string, b: seq<string>, task: string)
    requires task != x
    ensures Without(a + [x] + b, task) == Without(a, task) + [x] + Without(b, task)
  {
    FilterConcat(Other(task), a + [x], b);
    FilterConcat(Other(task), a, [x]);
  }

  /** Another closing may evict an older task than `x`, and puts one more task behind it. */
  lemma CloseBehind(a: seq<string>, x: string, b: seq<string>, memory: nat, task: string)
      returns (a': seq<string>, b': seq<string>)
    requires |a + [x] + b| <= memory && |b| + 1 < memory
    ensures Newest(a + [x] + b + [task], memory) == a' + [x] + b'
    ensures b' == b + [task]
  {
    a', b' := a, b + [task];
    var grown := a + [x] + b + [task];
    assert grown == a + [x] + b';
    if |grown| > memory {
      a' := a[1..];
      assert grown[1..] == a' + [x] + b';
    }
  }

  /** While fewer than `memory` tasks have closed behind it, a closed task is still remembered,
      and at most that many tasks stand behind it. */
  lemma {:induction false} StillRemembered(closed: seq<string>, memory: nat, end: Envelope, later: seq<Op>)
      returns (a: seq<string>, b: seq<string>)
    requires Distinct(closed) && |closed| <= memory
    requires IsClosing(closed, end)
    requires Forgot(end.taskId) !in later
    requires Closings(Close(closed, memory, end), memory, later) < memory
    ensures Run(Close(closed, memory, end), memory, later) == a + [end.taskId] + b
    ensures |b| <= Closings(Close(closed, memory, end), memory, later)
    ensures (forall op :: op in later ==> op.Observed?) ==>
              |b| == Closings(Close(closed, memory, end), memory, later)
  {
    var x := end.taskId;
    var start := Close(closed, memory, end);
    if later == [] {
      a, b := start[..|start| - 1], [];
    } else {
      var front, op := later[..|later| - 1], later[|later| - 1];
      assert op in later && forall o :: o in front ==> o in later;
      a, b := StillRemembered(closed, memory, end, front);
      var before := Run(start, memory, front);
      match op {
        case Forgot(task) =>
          WithoutAround(a, x, b, task);
          a, b := Without(a, task), Without(b, task);
        case Observed(env) =>
          if IsClosing(before, env) {
            RunStaysBounded(start, memory, front);
            a, b := CloseBehind(a, x, b, memory, env.taskId);
          }
      }
    }
  }

  /** Terminal states absorb: after a task's terminal envelope, whatever the other tasks do,
      every later envelope of that task moves nothing until `memory` further tasks have closed
      or the task is forgotten. */
  lemma TerminalAbsorbs(closed: seq<string>, memory: nat, end: Envelope, later: seq<Op>, late: Envelope)
    requires Distinct(closed) && |closed| <= memory
    requires IsClosing(closed, end)
    requires Forgot(end.taskId) !in later
    requires Closings(Close(closed, memory, end), memory, later) < memory
    requires late.taskId == end.taskId
    ensures Reported(Run(Close(closed, memory, end), memory, later), late) == None
    ensures Run(Close(closed, memory, end), memory, later + [Observed(late)])
         == Run(Close(closed, memory, end), memory, later)
  {
    var a, b := StillRemembered(closed, memory, end, later);
    assert (later + [Observed(late)])[..|later|] == later;
    assert end.taskId in Run(Close(closed, memory, end), memory, later);
  }

  /** The bound is exact: when nothing is forgotten and the task itself does not close again,
      it is still absorbed if and only if fewer than `memory` tasks closed after it. */
  lemma {:induction false} MemoryIsExact(closed: seq<string>, memory: nat, end: Envelope, later: seq<Op>)
    requires Distinct(closed) && |closed| <= memory
    requires IsClosing(closed, end)
    requires forall op :: op in later ==> op.Observed? && !(op.env.taskId == end.taskId && IsTerminal(op.env.payload))
    ensures end.taskId in Run(Close(closed, memory, end), memory, later)
       <==> Closings(Close(closed, memory, end), memory, later) < memory
  {
    var x := end.taskId;
    var start := Close(closed, memory, end);
    if Closings(start, memory, later) < memory {
      var a, b := StillRemembered(closed, memory, end, later);
      assert x in a + [x] + b;
    } else if later != [] {
      var front, op := later[..|later| - 1], later[|later| - 1];
      assert op in later && forall o :: o in front ==> o in later;
      MemoryIsExact(closed, memory, end, front);
      var before := Run(start, memory, front);
      if Closings(start, memory, front) < memory {
        // This operation is the closing that pushes `x` out of a full memory.
        var a, b := StillRemembered(closed, memory, end, front);
        RunStaysBounded(start, memory, front);
        OldestIsEvicted(a, x, b, memory, op.env.taskId);
      }
    }
  }

  lemma OldestIsEvicted(a: seq<string>, x: string, b: seq<string>, memory: nat, task: string)
    requires Distinct(a + [x] + b) && |a + [x] + b| <= memory && |b| == memory - 1 && task != x
    ensures x !in Newest(a + [x] + b + [task], memory)
  {
    assert a == [];
    var full := a + [x] + b;
    assert forall i :: 0 <= i < |b| ==> b[i] == full[i + 1] && full[0] == x;
    assert (full + [task])[1..] == b + [task];
  }
}
