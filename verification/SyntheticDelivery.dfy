/** What becomes of the frames without a seq in the delivery protocol: deltas, pushes, the inherited
    history of a fork and the steps of subtasks. No cursor may reject them. */
module SyntheticDelivery {
  import opened Collections
  import opened UIEvents
  import opened Translator
  import opened Subscriptions
  import opened Replay
  import opened Cursors
  import opened Conversation
  import opened Delivery
  import SecondReplay

  const DONE := Frame(None, None, None, ReplayDone)

  function SyntheticTest(): Frame -> bool {
    (f: Frame) => f.seqNo.None?
  }

  /** The frames without a seq, in order. */
  function Synthetic(frames: seq<Frame>): seq<Frame> {
    Filter(SyntheticTest(), frames)
  }

  function IsPush(): Frame -> bool {
    (f: Frame) => !f.event.Delta?
  }

  predicate EndsWith(whole: seq<Frame>, end: seq<Frame>) {
    |end| <= |whole| && whole[|whole| - |end|..] == end
  }

  lemma SyntheticOne(frames: seq<Frame>, f: Frame)
    ensures Synthetic(frames + [f]) == Synthetic(frames) + if f.seqNo.None? then [f] else []
  {
    assert (frames + [f])[..|frames|] == frames;
  }

  // ---------------------------------------------------------------------------
  // What is written
  // ---------------------------------------------------------------------------

  predicate IsLive(c: Conn) {
    !c.channel.reader.Replaying?
  }

  /** The part of the replay that was sent. */
  function Replayed(c: Conn): seq<Frame> {
    if c.replay.Some? && c.sentReplay <= |c.replay.value| then c.replay.value[..c.sentReplay] else []
  }

  /** Of everything without a seq nothing is missing on the wire: what the replay sent, the marker, and
      what the reader took, in order. */
  ghost predicate Written(c: Conn) {
    && (IsLive(c) ==> c.replay.Some? && c.sentReplay == |c.replay.value|)
    && (!IsLive(c) ==> c.channel.emitted == [])
    && (c.replay.None? ==> c.sentReplay == 0)
    && (c.replay.Some? ==> c.sentReplay <= |c.replay.value|)
    && Synthetic(c.sent)
       == Synthetic(Replayed(c)) + (if IsLive(c) then [DONE] else []) + Synthetic(c.channel.emitted)
  }

  lemma ChannelEmits(c: Channel, maxsize: nat, step: ChannelStep)
    ensures var next := StepChannel(c, maxsize, step);
            && (next.emitted == c.emitted
                || (|next.emitted| == |c.emitted| + 1 && next.emitted[..|c.emitted|] == c.emitted
                    && !c.reader.Replaying?))
            && (next.reader.Replaying? <==> c.reader.Replaying? && !step.GoingLive?)
  {
  }

  lemma ForwardWrites(c: Conn, f: Frame)
    ensures Synthetic(Forward(c, f).sent) == Synthetic(c.sent) + if f.seqNo.None? then [f] else []
  {
    SyntheticOne(c.sent, f);
  }

  lemma SendWrites(c: Conn)
    requires Written(c)
    ensures Written(SendNext(c))
  {
    hide Synthetic;
    hide Forward;
    if c.replay.Some? && c.sentReplay < |c.replay.value| && Delivery.IsOpen(c) {
      var f := c.replay.value[c.sentReplay];
      ForwardWrites(c, f);
      ForwardKeeps(c, f);
      SyntheticOne(Replayed(c), f);
      assert c.replay.value[..c.sentReplay + 1] == Replayed(c) + [f];
      SyntheticNothing();
    }
  }

  lemma SyntheticNothing()
    ensures Synthetic([]) == []
  {
  }

  lemma ForwardKeeps(c: Conn, f: Frame)
    ensures var d := Forward(c, f);
            d.channel == c.channel && d.replay == c.replay && d.sentReplay == c.sentReplay && d.inflight == c.inflight
            && d.received == c.received && d.since == c.since
  {
  }

  lemma LiveWrites(c: Conn, maxsize: nat, step: ChannelStep)
    requires Written(c)
    ensures Written(LiveStep(c, maxsize, step))
  {
    hide Synthetic;
    hide Forward;
    hide StepChannel;
    if !(step.Offering? || step.ClosingFromOutside? || step.GoingLive?) && Delivery.IsOpen(c) {
      var next := c.(channel := StepChannel(c.channel, maxsize, step));
      ChannelEmits(c.channel, maxsize, step);
      if |next.channel.emitted| != |c.channel.emitted| {
        var f := next.channel.emitted[|c.channel.emitted|];
        ForwardWrites(next, f);
        ForwardKeeps(next, f);
        SyntheticOne(c.channel.emitted, f);
        assert next.channel.emitted == c.channel.emitted + [f];
      }
    }
  }

  lemma GoLiveWrites(c: Conn, maxsize: nat)
    requires Written(c)
    ensures Written(GoLive(c, maxsize))
  {
    hide Synthetic;
    hide StepChannel;
    ChannelEmits(c.channel, maxsize, GoingLive);
    SyntheticOne(c.sent, DONE);
    SyntheticNothing();
  }

  lemma QuietWrites(c: Conn, maxsize: nat, step: ChannelStep)
    requires Written(c) && (step.Offering? || step.ClosingFromOutside?)
    ensures Written(c.(channel := StepChannel(c.channel, maxsize, step)))
    ensures Written(OfferNext(c, maxsize))
  {
    hide Synthetic;
    hide Offered;
  }

  lemma ReadWrites(c: Conn, task: string, log: seq<Envelope>, subtasks: map<string, seq<Envelope>>, fork: Option<Fork>)
    requires Written(c)
    ensures Written(Read(c, task, log, subtasks, fork))
  {
    hide Synthetic;
    hide ReplayFrames;
    assert Read(c, task, log, subtasks, fork).replay.Some? && c.replay.None? ==>
      Replayed(Read(c, task, log, subtasks, fork)) == Replayed(c);
  }

  lemma ServerWrites(c: Conn, task: string, maxsize: nat, log: seq<Envelope>, step: Step)
    requires Written(c)
    ensures Written(ServerNext(c, task, maxsize, log, step))
  {
    hide *;
    ServerNextIs(c, task, maxsize, log, step);
    QuietWrites(c, maxsize, ClosingFromOutside);
    match step {
      case SendReplayed => SendWrites(c);
      case SendReplayDone => GoLiveWrites(c, maxsize);
      case ReaderStep(s) => LiveWrites(c, maxsize, s);
      case ReadReplay(subtasks, fork) => ReadWrites(c, task, log, subtasks, fork);
      case _ =>
    }
  }

  lemma ServerNextIs(c: Conn, task: string, maxsize: nat, log: seq<Envelope>, step: Step)
    ensures ServerNext(c, task, maxsize, log, step)
         == match step
            case RunOffer => OfferNext(c, maxsize)
            case CloseFromOutside => c.(channel := StepChannel(c.channel, maxsize, ClosingFromOutside))
            case ReadReplay(subtasks, fork) => Read(c, task, log, subtasks, fork)
            case SendReplayed => SendNext(c)
            case SendReplayDone => GoLive(c, maxsize)
            case ReaderStep(s) => LiveStep(c, maxsize, s)
            case _ => c
  {
    hide StepChannel;
  }

  // ---------------------------------------------------------------------------
  // What is offered
  // ---------------------------------------------------------------------------

  /** The frames pushed to the present connection since it subscribed, by the steps. */
  function Pushes(task: string, maxsize: nat, steps: seq<Step>): seq<Frame> {
    if steps == [] then []
    else
      var front, step := steps[..|steps| - 1], steps[|steps| - 1];
      var before, w := Pushes(task, maxsize, front), Run(task, maxsize, front);
      match step
      case Connect => if w.conn.None? then [] else before
      case PushSynthetic(f) => if f.seqNo.None? then before + [f] else before
      case _ => before
  }

  /** Everything pushed is with the channel or on its way to it. */
  ghost predicate OffersAll(c: Conn, pushes: seq<Frame>) {
    Delivery.IsOpen(c) ==> Synthetic(c.channel.offered + c.inflight) == pushes
  }

  lemma ScheduleOffers(c: Conn, pushes: seq<Frame>, f: Frame)
    requires OffersAll(c, pushes)
    ensures OffersAll(Schedule(Some(c), f).value, if f.seqNo.None? then pushes + [f] else pushes)
  {
    hide Synthetic;
    if Delivery.IsOpen(c) {
      assert c.channel.offered + (c.inflight + [f]) == c.channel.offered + c.inflight + [f];
      SyntheticOne(c.channel.offered + c.inflight, f);
    }
  }

  lemma ServerOffers(c: Conn, task: string, maxsize: nat, log: seq<Envelope>, step: Step, pushes: seq<Frame>)
    requires OffersAll(c, pushes)
    ensures OffersAll(ServerNext(c, task, maxsize, log, step), pushes)
  {
    hide Synthetic;
    ServerKeepsOffered(c, task, maxsize, log, step);
    hide ServerNext;
  }

  lemma ServerKeepsOffered(c: Conn, task: string, maxsize: nat, log: seq<Envelope>, step: Step)
    ensures var d := ServerNext(c, task, maxsize, log, step);
            Delivery.IsOpen(d) ==>
              Delivery.IsOpen(c) && d.channel.offered + d.inflight == c.channel.offered + c.inflight
  {
    hide Offered;
    hide ReplayFrames;
    hide Forward;
    if step.RunOffer? && c.inflight != [] {
      assert c.inflight == [c.inflight[0]] + c.inflight[1..];
    }
    forall d: Conn, f: Frame ensures Forward(d, f).channel == d.channel && Forward(d, f).inflight == d.inflight {
      ForwardKeeps(d, f);
    }
  }

  // ---------------------------------------------------------------------------
  // What is received
  // ---------------------------------------------------------------------------

  /** The client applied every frame without a seq that it received on this connection. */
  ghost predicate Taken(history: seq<Frame>, c: Conn) {
    c.received <= |c.sent| && EndsWith(Synthetic(history), Synthetic(c.sent[..c.received]))
  }

  lemma ReceiveTakes(w: World, c: Conn)
    requires Taken(w.history, c)
    ensures var next := ReceiveNext(w, c);
            (c.received < |c.sent| ==>
               next.conn == Some(c.(received := c.received + 1)) && Taken(next.history, next.conn.value))
            && (c.received >= |c.sent| ==> next == w)
  {
    hide Synthetic;
    hide FoldEvent;
    if c.received < |c.sent| {
      var f := c.sent[c.received];
      assert c.sent[..c.received + 1] == c.sent[..c.received] + [f];
      SyntheticOne(c.sent[..c.received], f);
      SyntheticOne(w.history, f);
    }
  }

  lemma ServerTakes(history: seq<Frame>, c: Conn, task: string, maxsize: nat, log: seq<Envelope>, step: Step)
    requires Taken(history, c)
    ensures Taken(history, ServerNext(c, task, maxsize, log, step))
  {
    ServerNextAppends(c, task, maxsize, log, step);
    hide ServerNext;
    hide Synthetic;
    var d := ServerNext(c, task, maxsize, log, step);
    assert d.sent[..c.received] == c.sent[..c.received];
  }

  // ---------------------------------------------------------------------------
  // Every run
  // ---------------------------------------------------------------------------

  ghost predicate SyntheticInv(w: World, pushes: seq<Frame>) {
    w.conn.Some? ==> Written(w.conn.value) && OffersAll(w.conn.value, pushes) && Taken(w.history, w.conn.value)
  }

  lemma OpenIsEmpty(w: World)
    ensures Written(Open(w)) && OffersAll(Open(w), []) && Taken(w.history, Open(w))
  {
    assert Open(w).sent[..0] == [];
  }

  lemma ScheduleKeeps(history: seq<Frame>, c: Conn, f: Frame, pushes: seq<Frame>)
    requires Written(c) && OffersAll(c, pushes) && Taken(history, c)
    ensures var d := Schedule(Some(c), f).value;
            Written(d) && Taken(history, d) && OffersAll(d, if f.seqNo.None? then pushes + [f] else pushes)
  {
    ScheduleOffers(c, pushes, f);
    hide *;
    ScheduleOnlyQueues(c, f);
    WrittenBy(c, Schedule(Some(c), f).value);
    TakenBy(history, c, Schedule(Some(c), f).value);
  }

  lemma ScheduleOnlyQueues(c: Conn, f: Frame)
    ensures var d := Schedule(Some(c), f).value; d == c.(inflight := d.inflight)
  {
  }

  lemma WrittenBy(c: Conn, d: Conn)
    requires Written(c) && d == c.(inflight := d.inflight)
    ensures Written(d)
  {
    hide Synthetic;
  }

  lemma TakenBy(history: seq<Frame>, c: Conn, d: Conn)
    requires Taken(history, c) && d == c.(inflight := d.inflight)
    ensures Taken(history, d)
  {
    hide Synthetic;
    hide EndsWith;
  }

  lemma FannedIsDurable(log: seq<Envelope>)
    ensures forall f :: f in AllFrames(log) ==> f.seqNo.Some?
  {
    if log != [] { FannedIsDurable(log[..|log| - 1]); }
  }

  lemma StepKeeps(task: string, maxsize: nat, w: World, step: Step, pushes: seq<Frame>, after: seq<Frame>)
    requires SyntheticInv(w, pushes)
    requires after == match step
                      case Connect => if w.conn.None? then [] else pushes
                      case PushSynthetic(f) => if f.seqNo.None? then pushes + [f] else pushes
                      case _ => pushes
    ensures SyntheticInv(Next(w, task, maxsize, step), after)
  {
    hide Written;
    hide OffersAll;
    hide Taken;
    hide ServerNext;
    hide Open;
    hide ReceiveNext;
    hide Schedule;
    hide AllFrames;
    match step {
      case Connect => OpenIsEmpty(w);
      case FanOut =>
        FannedIsDurable(w.log);
        if w.conn.Some? && w.fanned < |AllFrames(w.log)| {
          ScheduleKeeps(w.history, w.conn.value, AllFrames(w.log)[w.fanned], pushes);
          ScheduleSome(w.conn.value, AllFrames(w.log)[w.fanned]);
        }
        ScheduleNone();
      case PushSynthetic(f) =>
        if w.conn.Some? {
          ScheduleKeeps(w.history, w.conn.value, f, pushes);
          ScheduleSome(w.conn.value, f);
        }
        ScheduleNone();
      case Receive =>
        if w.conn.Some? { ReceiveKeeps(w, w.conn.value, pushes); }
      case Commit(_) =>
      case Drop =>
      case _ =>
        if w.conn.Some? {
          ServerWrites(w.conn.value, task, maxsize, w.log, step);
          ServerOffers(w.conn.value, task, maxsize, w.log, step, pushes);
          ServerTakes(w.history, w.conn.value, task, maxsize, w.log, step);
        }
    }
  }

  lemma ScheduleSome(c: Conn, f: Frame)
    ensures Schedule(Some(c), f).Some?
  {
  }

  lemma ScheduleNone()
    ensures forall f :: Schedule(None, f) == None
  {
  }

  lemma ReceiveKeeps(w: World, c: Conn, pushes: seq<Frame>)
    requires w.conn == Some(c) && Written(c) && OffersAll(c, pushes) && Taken(w.history, c)
    ensures SyntheticInv(ReceiveNext(w, c), pushes)
  {
    ReceiveTakes(w, c);
    hide *;
    SyntheticMeans(ReceiveNext(w, c), pushes);
    SyntheticMeans(w, pushes);
    if c.received < |c.sent| {
      CountsOnly(c, pushes);
    }
  }

  lemma SyntheticMeans(w: World, pushes: seq<Frame>)
    ensures SyntheticInv(w, pushes)
       <==> (w.conn.Some? ==>
               Written(w.conn.value) && OffersAll(w.conn.value, pushes) && Taken(w.history, w.conn.value))
  {
  }

  lemma CountsOnly(c: Conn, pushes: seq<Frame>)
    requires Written(c) && OffersAll(c, pushes)
    ensures Written(c.(received := c.received + 1)) && OffersAll(c.(received := c.received + 1), pushes)
  {
    hide Synthetic;
  }

  /** On every run, what a connection has written without a seq is, in order, what its replay sent, the
      marker, and what its reader took; what it was offered is what was pushed since it subscribed; and
      the client applied all of it that it received. */
  lemma {:induction false} NothingSyntheticIsLost(task: string, maxsize: nat, steps: seq<Step>)
    ensures SyntheticInv(Run(task, maxsize, steps), Pushes(task, maxsize, steps))
  {
    hide *;
    RunUnfolds(task, maxsize, steps);
    if steps == [] {
      StartIsEmpty(task, maxsize);
    } else {
      var front, step := steps[..|steps| - 1], steps[|steps| - 1];
      NothingSyntheticIsLost(task, maxsize, front);
      StepKeeps(task, maxsize, Run(task, maxsize, front), step, Pushes(task, maxsize, front),
                Pushes(task, maxsize, steps));
    }
  }

  lemma StartIsEmpty(task: string, maxsize: nat)
    ensures SyntheticInv(Run(task, maxsize, []), Pushes(task, maxsize, []))
  {
  }

  lemma RunUnfolds(task: string, maxsize: nat, steps: seq<Step>)
    ensures steps != [] ==>
              var front, step := steps[..|steps| - 1], steps[|steps| - 1];
              && Run(task, maxsize, steps) == Next(Run(task, maxsize, front), task, maxsize, step)
              && Pushes(task, maxsize, steps)
                 == match step
                    case Connect => if Run(task, maxsize, front).conn.None? then [] else Pushes(task, maxsize, front)
                    case PushSynthetic(f) =>
                      if f.seqNo.None? then Pushes(task, maxsize, front) + [f] else Pushes(task, maxsize, front)
                    case _ => Pushes(task, maxsize, front)
  {
    hide Next;
  }

  /** So once a connection that has not overflowed is drained, the client's last frames without a seq are
      everything such in the replay, the marker, and everything pushed since but for deltas that a full
      queue gave up: a fork's history, the steps of subtasks, a pushed error are all there. */
  lemma DrainedShowsSynthetic(task: string, maxsize: nat, steps: seq<Step>)
    requires Drained(Run(task, maxsize, steps))
    ensures var w := Run(task, maxsize, steps);
            var replay, live := w.conn.value.replay, Synthetic(w.conn.value.channel.emitted);
            && replay.Some?
            && EndsWith(Synthetic(w.history), Synthetic(replay.value) + [DONE] + live)
            && Filter(IsPush(), live) == Filter(IsPush(), Pushes(task, maxsize, steps))
            && forall f :: f in live ==> f in Pushes(task, maxsize, steps)
  {
    var w := Run(task, maxsize, steps);
    var c := w.conn.value;
    NothingSyntheticIsLost(task, maxsize, steps);
    Delivery.RunKeepsInv(task, maxsize, steps);
    hide Run;
    hide Pushes;
    hide CursorInv;
    hide ReplayInv;
    hide ClientInv;
    hide LinkInv;
    hide Admit;
    hide AllFrames;
    hide Synthetic;
    hide Thinned;
    hide EndsWith;
    hide Filter;
    assert c.replay.value[..c.sentReplay] == c.replay.value && c.sent[..c.received] == c.sent;
    assert c.channel.offered + c.inflight == c.channel.offered;
    assert c.channel.emitted + c.channel.inbox.items == c.channel.emitted;
    ThinnedSynthetic(c.channel.offered, c.channel.emitted);
  }

  lemma ThinnedSynthetic(offered: seq<Frame>, emitted: seq<Frame>)
    requires Thinned(offered, emitted)
    ensures Filter(IsPush(), Synthetic(emitted)) == Filter(IsPush(), Synthetic(offered))
    ensures forall f :: f in Synthetic(emitted) ==> f in Synthetic(offered)
  {
    ThinnedKeepsTheRest(offered, emitted);
    ThinnedIsPart(offered, emitted);
    var both := (f: Frame) => f.seqNo.None? && !f.event.Delta?;
    FilterFilter(SyntheticTest(), IsPush(), both, emitted);
    FilterFilter(SyntheticTest(), IsPush(), both, offered);
    FilterFilter(KeptTest(), SyntheticTest(), both, emitted);
    FilterFilter(KeptTest(), SyntheticTest(), both, offered);
  }

  lemma {:induction false} ThinnedIsPart(xs: seq<Frame>, ys: seq<Frame>)
    requires Thinned(xs, ys)
    ensures forall y :: y in ys ==> y in xs
  {
    if xs != [] {
      var front, x := xs[..|xs| - 1], xs[|xs| - 1];
      assert xs == front + [x];
      if ys != [] && ys[|ys| - 1] == x && Thinned(front, ys[..|ys| - 1]) {
        ThinnedIsPart(front, ys[..|ys| - 1]);
        assert ys == ys[..|ys| - 1] + [x];
      } else {
        ThinnedIsPart(front, ys);
      }
    }
  }

  // ---------------------------------------------------------------------------
  // What a replay holds
  // ---------------------------------------------------------------------------

  /** A client that has passed seq 0 is resumed: the replay it is sent holds no frame without a seq, so
      nothing it has shown is shown again. Any other client is sent the whole: what a fork inherits, and its
      own frames with the streams of its subtasks. */
  lemma ReconnectRepeatsNothing(w: World, task: string, maxsize: nat, subtasks: map<string, seq<Envelope>>,
                                fork: Option<Fork>)
    requires w.conn.None?
    ensures var joined := Next(w, task, maxsize, Connect);
            var conn := Next(joined, task, maxsize, ReadReplay(subtasks, fork)).conn;
            && conn.Some? && conn.value.replay.Some?
            && (w.conv.lastSeq > 0 ==>
                  && conn.value.replay.value == AllFrames(Filter((env: Envelope) => env.seqNo > w.conv.lastSeq, w.log))
                  && Synthetic(conn.value.replay.value) == [])
            && (w.conv.lastSeq <= 0 ==>
                  conn.value.replay.value == InheritedPrefix(fork, task) + OwnFrames(w.log, subtasks, task, true))
  {
    hide AllFrames;
    hide OwnFrames;
    hide InheritedPrefix;
    hide Synthetic;
    hide ReplayFrames;
    if w.conv.lastSeq > 0 {
      var past := (env: Envelope) => env.seqNo > w.conv.lastSeq;
      ResumedReplayIsOwn(task, w.log, subtasks, fork, w.conv.lastSeq);
      SameFilter((env: Envelope) => env.seqNo > w.conv.lastSeq as nat, past, w.log);
      NothingSynthetic(Filter(past, w.log));
    } else {
      SecondReplay.FullReplay(task, w.log, subtasks, fork, if w.conv.lastSeq >= 0 then Some(0) else None);
    }
  }

  lemma {:induction false} NothingSynthetic(log: seq<Envelope>)
    ensures Synthetic(AllFrames(log)) == []
  {
    if log != [] {
      NothingSynthetic(log[..|log| - 1]);
      FannedIsDurable(log);
      FilterNone(SyntheticTest(), AllFrames(log));
    }
  }
}
