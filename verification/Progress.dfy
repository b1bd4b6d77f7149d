/** No connection gets stuck: from every state of the delivery protocol an open connection that has not
    overflowed can be drained, by steps of the server and the client alone. */
module Progress {
  import opened Collections
  import opened UIEvents
  import opened Translator
  import opened Subscriptions
  import opened Conversation
  import opened Delivery
  import opened SyntheticDelivery

  /** An open connection with room in its queue's future. */
  ghost predicate Going(w: World) {
    && w.conn.Some?
    && w.fanned <= |AllFrames(w.log)|
    && var c := w.conn.value;
       && Delivery.IsOpen(c) && !c.channel.inbox.overflowed && c.received <= |c.sent|
       && (c.replay.None? ==> c.channel.reader.Replaying? && c.sentReplay == 0)
       && (c.replay.Some? ==>
             c.sentReplay <= |c.replay.value| && (c.sentReplay < |c.replay.value| ==> c.channel.reader.Replaying?))
  }

  /** What is still to do once the replay was read. */
  function Left(w: World): int
    requires w.conn.Some?
  {
    var c := w.conn.value;
    5 * (|AllFrames(w.log)| - w.fanned) + 4 * |c.inflight| + 3 * |c.channel.inbox.items|
    + (if c.replay.Some? then 2 * (|c.replay.value| - c.sentReplay) else 0)
    + (if c.channel.reader.Replaying? then 2 else 0) + (|c.sent| - c.received)
  }

  /** A step of the connection and its client: nothing new is committed or pushed, nobody closes or reconnects. */
  predicate Inside(step: Step) {
    !step.Commit? && !step.PushSynthetic? && !step.CloseFromOutside? && !step.Drop? && !step.Connect?
  }

  /** The next thing to do; the reader comes before the queue, so that an offer always finds room. */
  function Todo(w: World): (step: Step)
    requires w.conn.Some?
    ensures Inside(step)
  {
    var c := w.conn.value;
    if c.replay.None? then ReadReplay(map[], None)
    else if c.sentReplay < |c.replay.value| then SendReplayed
    else if c.channel.reader.Replaying? then SendReplayDone
    else if c.channel.inbox.items != [] then
      ReaderStep(if c.channel.reader.Waiting? then WakingUp else CheckingFlag)
    else if c.inflight != [] then RunOffer
    else if w.fanned < |AllFrames(w.log)| then FanOut
    else Receive
  }

  lemma ForwardAdds(c: Conn, f: Frame)
    ensures var d := Forward(c, f);
            && |c.sent| <= |d.sent| <= |c.sent| + 1
            && d.channel == c.channel && d.replay == c.replay && d.sentReplay == c.sentReplay
            && d.inflight == c.inflight && d.received == c.received
  {
    hide Cursors.Accepts;
    hide Cursors.Moved;
  }

  /** Reading the replay is the one step that may add to what is left. */
  lemma ReadGoes(w: World, task: string, maxsize: nat)
    requires Going(w) && w.conn.value.replay.None?
    ensures var next := Next(w, task, maxsize, Todo(w)); Going(next) && next.conn.value.replay.Some?
  {
    hide Replay.ReplayFrames;
    hide AllFrames;
  }

  lemma SendGoes(w: World, task: string, maxsize: nat)
    requires Going(w) && w.conn.value.replay.Some? && w.conn.value.sentReplay < |w.conn.value.replay.value|
    ensures var next := Next(w, task, maxsize, Todo(w));
            Going(next) && next.conn.value.replay.Some? && Left(next) < Left(w)
  {
    hide AllFrames;
    hide Forward;
    var c := w.conn.value;
    ForwardAdds(c, c.replay.value[c.sentReplay]);
  }

  lemma LiveGoes(w: World, task: string, maxsize: nat)
    requires Going(w) && w.conn.value.replay.Some? && w.conn.value.sentReplay == |w.conn.value.replay.value|
    requires w.conn.value.channel.reader.Replaying?
    ensures var next := Next(w, task, maxsize, Todo(w));
            Going(next) && next.conn.value.replay.Some? && Left(next) < Left(w)
  {
    hide AllFrames;
  }

  lemma ReaderTakes(c: Channel, maxsize: nat)
    requires c.inbox.items != [] && !c.inbox.overflowed && (c.reader.Waiting? || c.reader.Checking?)
    ensures StepChannel(c, maxsize, if c.reader.Waiting? then WakingUp else CheckingFlag)
         == c.(inbox := c.inbox.(items := c.inbox.items[1..]), reader := Checking,
               emitted := c.emitted + [c.inbox.items[0]])
  {
  }

  lemma TakeGoes(w: World, task: string, maxsize: nat)
    requires Going(w) && w.conn.value.replay.Some? && w.conn.value.sentReplay == |w.conn.value.replay.value|
    requires !w.conn.value.channel.reader.Replaying? && w.conn.value.channel.inbox.items != []
    ensures var next := Next(w, task, maxsize, Todo(w));
            Going(next) && next.conn.value.replay.Some? && Left(next) < Left(w)
  {
    hide AllFrames;
    hide Forward;
    hide StepChannel;
    var c := w.conn.value;
    var step := if c.channel.reader.Waiting? then WakingUp else CheckingFlag;
    ReaderTakes(c.channel, maxsize);
    var taken := c.(channel := StepChannel(c.channel, maxsize, step));
    ForwardAdds(taken, c.channel.inbox.items[0]);
    assert Next(w, task, maxsize, Todo(w)).conn.value == Forward(taken, c.channel.inbox.items[0]);
  }

  lemma OfferGoes(w: World, task: string, maxsize: nat)
    requires Going(w) && w.conn.value.replay.Some? && w.conn.value.sentReplay == |w.conn.value.replay.value|
    requires !w.conn.value.channel.reader.Replaying? && w.conn.value.channel.inbox.items == [] && maxsize >= 1
    requires w.conn.value.inflight != [] || w.fanned < |AllFrames(w.log)|
    ensures var next := Next(w, task, maxsize, Todo(w));
            Going(next) && next.conn.value.replay.Some? && Left(next) < Left(w)
  {
    hide AllFrames;
  }

  lemma ReceiveGoes(w: World, task: string, maxsize: nat)
    requires Going(w) && w.conn.value.replay.Some? && w.conn.value.sentReplay == |w.conn.value.replay.value|
    requires !w.conn.value.channel.reader.Replaying? && w.conn.value.channel.inbox.items == []
    requires w.conn.value.inflight == [] && w.fanned == |AllFrames(w.log)|
    ensures Drained(w) <==> w.conn.value.received == |w.conn.value.sent|
    ensures !Drained(w) ==>
              var next := Next(w, task, maxsize, Todo(w));
              Going(next) && next.conn.value.replay.Some? && Left(next) < Left(w)
  {
    hide AllFrames;
    hide FoldEvent;
  }

  /** One step towards the end. */
  lemma TodoGoes(w: World, task: string, maxsize: nat)
    requires Going(w) && maxsize >= 1 && !Drained(w)
    ensures var next := Next(w, task, maxsize, Todo(w));
            && Going(next) && next.conn.value.replay.Some?
            && (w.conn.value.replay.Some? ==> Left(next) < Left(w))
  {
    GoingMeans(w);
    hide *;
    var c := w.conn.value;
    if c.replay.None? { ReadGoes(w, task, maxsize); }
    else if c.sentReplay < |c.replay.value| { SendGoes(w, task, maxsize); }
    else if c.channel.reader.Replaying? { LiveGoes(w, task, maxsize); }
    else if c.channel.inbox.items != [] { TakeGoes(w, task, maxsize); }
    else if c.inflight != [] || w.fanned < |AllFrames(w.log)| { OfferGoes(w, task, maxsize); }
    else { ReceiveGoes(w, task, maxsize); }
  }

  lemma GoingMeans(w: World)
    requires Going(w)
    ensures w.conn.Some? && w.fanned <= |AllFrames(w.log)|
    ensures w.conn.value.replay.Some? ==> w.conn.value.sentReplay <= |w.conn.value.replay.value|
    ensures w.conn.value.replay.Some? ==> Left(w) >= 0
  {
    hide AllFrames;
  }

  function RunFrom(w: World, task: string, maxsize: nat, steps: seq<Step>): World
    decreases |steps|
  {
    if steps == [] then w else RunFrom(Next(w, task, maxsize, steps[0]), task, maxsize, steps[1..])
  }

  lemma {:induction false} Drains(w: World, task: string, maxsize: nat) returns (more: seq<Step>)
    requires Going(w) && maxsize >= 1
    ensures Drained(RunFrom(w, task, maxsize, more)) && forall step :: step in more ==> Inside(step)
    decreases if w.conn.Some? && w.conn.value.replay.Some? then 0 else 1, if w.conn.Some? then Left(w) else 0
  {
    hide *;
    GoingMeans(w);
    if Drained(w) {
      more := [];
      RunsNothing(w, task, maxsize);
    } else {
      TodoGoes(w, task, maxsize);
      var next := Next(w, task, maxsize, Todo(w));
      GoingMeans(next);
      var rest := Drains(next, task, maxsize);
      more := [Todo(w)] + rest;
      RunsOne(w, task, maxsize, Todo(w), rest);
    }
  }

  lemma RunsNothing(w: World, task: string, maxsize: nat)
    ensures RunFrom(w, task, maxsize, []) == w
  {
  }

  lemma RunsOne(w: World, task: string, maxsize: nat, step: Step, rest: seq<Step>)
    ensures RunFrom(w, task, maxsize, [step] + rest) == RunFrom(Next(w, task, maxsize, step), task, maxsize, rest)
  {
    hide Next;
    assert ([step] + rest)[1..] == rest;
  }

  lemma {:induction false} RunContinues(task: string, maxsize: nat, steps: seq<Step>, more: seq<Step>)
    ensures Run(task, maxsize, steps + more) == RunFrom(Run(task, maxsize, steps), task, maxsize, more)
    decreases |more|
  {
    hide Next;
    if more == [] {
      assert steps + more == steps;
    } else {
      var longer := steps + [more[0]];
      assert longer + more[1..] == steps + more && longer[..|steps|] == steps;
      RunContinues(task, maxsize, longer, more[1..]);
    }
  }

  /** From every state of every run an open connection that has not overflowed can be drained: the replay is
      read and sent, the marker follows, the queue is emptied, and the client holds all of it. */
  lemma EveryConnectionCanDrain(task: string, maxsize: nat, steps: seq<Step>) returns (more: seq<Step>)
    requires maxsize >= 1 && Run(task, maxsize, steps).conn.Some?
    requires Delivery.IsOpen(Run(task, maxsize, steps).conn.value)
    requires !Run(task, maxsize, steps).conn.value.channel.inbox.overflowed
    ensures Drained(Run(task, maxsize, steps + more)) && forall step :: step in more ==> Inside(step)
  {
    Delivery.RunKeepsInv(task, maxsize, steps);
    NothingSyntheticIsLost(task, maxsize, steps);
    RunIsGoing(Run(task, maxsize, steps), task, maxsize, Pushes(task, maxsize, steps));
    hide *;
    more := Drains(Run(task, maxsize, steps), task, maxsize);
    RunContinues(task, maxsize, steps, more);
  }

  lemma RunIsGoing(w: World, task: string, maxsize: nat, pushes: seq<Frame>)
    requires Delivery.Inv(task, maxsize, w) && SyntheticInv(w, pushes)
    requires w.conn.Some? && Delivery.IsOpen(w.conn.value) && !w.conn.value.channel.inbox.overflowed
    ensures Going(w)
  {
    hide AllFrames;
    hide Synthetic;
    hide EndsWith;
    hide CursorInv;
    hide FeedInv;
    hide ClientInv;
    hide LinkInv;
    hide Cursors.Admit;
  }

  // ---------------------------------------------------------------------------
  // The log
  // ---------------------------------------------------------------------------

  /** What was committed to the session's stream, by the steps: envelopes of its task, seqs going up. */
  function Committed(task: string, steps: seq<Step>): seq<Envelope> {
    if steps == [] then []
    else
      var before, step := Committed(task, steps[..|steps| - 1]), steps[|steps| - 1];
      if step.Commit? && step.env.taskId == task
         && (before == [] || before[|before| - 1].seqNo < step.env.seqNo)
      then before + [step.env]
      else before
  }

  /** The log of a run is what was committed to it, and nothing else. */
  lemma {:induction false} LogIsCommitted(task: string, maxsize: nat, steps: seq<Step>)
    ensures Run(task, maxsize, steps).log == Committed(task, steps)
  {
    if steps != [] {
      var front, step := steps[..|steps| - 1], steps[|steps| - 1];
      LogIsCommitted(task, maxsize, front);
      StepLogs(task, maxsize, Run(task, maxsize, front), step);
      hide Next;
    }
  }

  lemma StepLogs(task: string, maxsize: nat, w: World, step: Step)
    ensures Next(w, task, maxsize, step).log
         == if step.Commit? && step.env.taskId == task
               && (w.log == [] || w.log[|w.log| - 1].seqNo < step.env.seqNo)
            then w.log + [step.env]
            else w.log
  {
    hide AllFrames;
    hide ServerNext;
    hide FoldEvent;
  }
}
