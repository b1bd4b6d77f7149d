/** The delivery protocol for one session's own stream, as steps: commit, fan-out, offer, replay,
    reader check, pop, receive, drop, reconnect. It composes the translator, the hub's replay and
    inbox, the per-connection cursor and the client fold. */
module Delivery {
  import opened Collections
  import opened UIEvents
  import opened Translator
  import opened Subscriptions
  import opened Replay
  import opened Cursors
  import opened Conversation

  /** One connection: the subscription, its cursor, and the two ends of the wire. `start`, `read`
      and `held` are histories: how many stream frames had been fanned out when it subscribed, how
      many the replay read, and how many first frames the client already held. */
  datatype Conn = Conn(
    since: Option<nat>,
    cursor: CursorState,
    channel: Channel,
    inflight: seq<Frame>,
    replay: Option<seq<Frame>>,
    sentReplay: nat,
    sent: seq<Frame>,
    received: nat,
    start: nat,
    read: nat,
    held: nat)

  /** `history` is every frame the client let past its own dedup. */
  datatype World = World(
    log: seq<Envelope>,
    fanned: nat,
    conn: Option<Conn>,
    conv: State,
    history: seq<Frame>)

  const START := World([], 0, None, INITIAL, [])

  datatype Step =
    | Commit(env: Envelope)
    | FanOut
    | PushSynthetic(frame: Frame)
    | RunOffer
    | CloseFromOutside
    | ReadReplay(subtasks: map<string, seq<Envelope>>, fork: Option<Fork>)
    | SendReplayed
    | SendReplayDone
    | ReaderStep(step: ChannelStep)
    | Receive
    | Drop
    | Connect

  predicate Extends(task: string, log: seq<Envelope>, env: Envelope) {
    env.taskId == task && (log != [] ==> log[|log| - 1].seqNo < env.seqNo)
  }

  predicate IsOpen(c: Conn) {
    !c.channel.reader.Ended?
  }

  function Schedule(conn: Option<Conn>, f: Frame): Option<Conn> {
    if conn.Some? && IsOpen(conn.value) then Some(conn.value.(inflight := conn.value.inflight + [f])) else conn
  }

  /** The cursor decides whether a frame is written. */
  function Forward(c: Conn, f: Frame): Conn {
    c.(cursor := Moved(c.cursor, f), sent := if Accepts(c.cursor, f) then c.sent + [f] else c.sent)
  }

  function OfferNext(c: Conn, maxsize: nat): Conn {
    if c.inflight == [] || !IsOpen(c) then c
    else c.(channel := StepChannel(c.channel, maxsize, Offering(c.inflight[0])), inflight := c.inflight[1..])
  }

  function Read(c: Conn, task: string, log: seq<Envelope>, subtasks: map<string, seq<Envelope>>,
                fork: Option<Fork>): Conn {
    if c.replay.Some? || !IsOpen(c) then c
    else c.(replay := Some(ReplayFrames(task, log, subtasks, fork, c.since)), read := |AllFrames(log)|)
  }

  function SendNext(c: Conn): Conn {
    if c.replay.None? || c.sentReplay >= |c.replay.value| || !IsOpen(c) then c
    else Forward(c, c.replay.value[c.sentReplay]).(sentReplay := c.sentReplay + 1)
  }

  function GoLive(c: Conn, maxsize: nat): Conn {
    if c.replay.None? || c.sentReplay < |c.replay.value| || !c.channel.reader.Replaying? then c
    else
      c.(channel := StepChannel(c.channel, maxsize, GoingLive), sent := c.sent + [Frame(None, None, None, ReplayDone)])
  }

  /** A step of the live loop: check the flag, pop, wake or time out; a popped frame is forwarded. */
  function LiveStep(c: Conn, maxsize: nat, step: ChannelStep): Conn {
    if step.Offering? || step.ClosingFromOutside? || step.GoingLive? || !IsOpen(c) then c
    else
      var next := c.(channel := StepChannel(c.channel, maxsize, step));
      if |next.channel.emitted| == |c.channel.emitted| then next
      else Forward(next, next.channel.emitted[|c.channel.emitted|])
  }

  /** The client reads its resume value at connect time; a negative one asks for everything. */
  function Open(w: World): Conn {
    var since := if w.conv.lastSeq >= 0 then Some(w.conv.lastSeq) else None;
    Conn(since, OpenCursor(since), FRESH_CHANNEL, [], None, 0, [], 0, w.fanned, 0, |Durable(w.history)|)
  }

  function ReceiveNext(w: World, c: Conn): World {
    if c.received >= |c.sent| then w
    else
      var f := c.sent[c.received];
      w.(conn := Some(c.(received := c.received + 1)),
         conv := FoldEvent(w.conv, f),
         history := if IsFresh(w.conv, f) then w.history + [f] else w.history)
  }

  /** The steps of the serving side alone. */
  function ServerNext(c: Conn, task: string, maxsize: nat, log: seq<Envelope>, step: Step): Conn {
    match step
    case RunOffer => OfferNext(c, maxsize)
    case CloseFromOutside => c.(channel := StepChannel(c.channel, maxsize, ClosingFromOutside))
    case ReadReplay(subtasks, fork) => Read(c, task, log, subtasks, fork)
    case SendReplayed => SendNext(c)
    case SendReplayDone => GoLive(c, maxsize)
    case ReaderStep(s) => LiveStep(c, maxsize, s)
    case _ => c
  }

  function Next(w: World, task: string, maxsize: nat, step: Step): World {
    match step
    case Commit(env) => if Extends(task, w.log, env) then w.(log := w.log + [env]) else w
    case FanOut =>
      if w.fanned < |AllFrames(w.log)| then
        w.(fanned := w.fanned + 1, conn := Schedule(w.conn, AllFrames(w.log)[w.fanned]))
      else w
    case PushSynthetic(f) => if IsDurable(f) then w else w.(conn := Schedule(w.conn, f))
    case Drop => w.(conn := None)
    case Connect => if w.conn.None? then w.(conn := Some(Open(w))) else w
    case Receive => if w.conn.Some? then ReceiveNext(w, w.conn.value) else w
    case _ => if w.conn.Some? then w.(conn := Some(ServerNext(w.conn.value, task, maxsize, w.log, step))) else w
  }

  function Run(task: string, maxsize: nat, steps: seq<Step>): World {
    if steps == [] then START
    else Next(Run(task, maxsize, steps[..|steps| - 1]), task, maxsize, steps[|steps| - 1])
  }

  // ---------------------------------------------------------------------------
  // The server half
  // ---------------------------------------------------------------------------

  ghost predicate Tagged(task: string, frames: seq<Frame>) {
    forall f :: f in frames && IsDurable(f) ==> f.task == Some(task)
  }

  /** Everything the cursor has been shown, in order. */
  function Passed(c: Conn): seq<Frame> {
    (if c.replay.None? || c.sentReplay > |c.replay.value| then [] else c.replay.value[..c.sentReplay])
    + c.channel.emitted
  }

  ghost predicate CursorInv(task: string, c: Conn) {
    && c.cursor.floor == OpenCursor(c.since).floor >= -1
    && (forall key :: key in c.cursor.seen ==> key == task)
    && (if task in c.cursor.seen then c.cursor.seen[task] else c.cursor.floor) == CursorAfter(c.cursor.floor, Passed(c))
    && Durable(c.sent) == Admit(c.cursor.floor, Passed(c))
  }

  /** What the connection will ever be shown: `all` is the stream's frames, `fanned` of them handed out. */
  ghost predicate FeedInv(task: string, maxsize: nat, all: seq<Frame>, fanned: nat, c: Conn) {
    && ChannelInv(c.channel, maxsize)
    && c.start <= fanned <= |all|
    && Durable(c.channel.offered + c.inflight) == all[c.start..fanned]
    && DeltasAreSynthetic(c.channel.offered + c.inflight)
    && Tagged(task, c.channel.offered + c.inflight)
  }

  ghost predicate ReplayInv(task: string, all: seq<Frame>, c: Conn) {
    && (c.replay.None? ==> c.sentReplay == 0 && c.channel.reader.Replaying?)
    && (c.replay.Some? ==>
          && c.sentReplay <= |c.replay.value|
          && (c.sentReplay < |c.replay.value| ==> c.channel.reader.Replaying?)
          && c.start <= c.read <= |all|
          && Tagged(task, c.replay.value)
          && Admit(c.cursor.floor, c.replay.value) == Admit(c.cursor.floor, all[..c.read])
          && CursorAfter(c.cursor.floor, c.replay.value) == CursorAfter(c.cursor.floor, all[..c.read]))
  }

  ghost predicate ServerInv(task: string, maxsize: nat, all: seq<Frame>, fanned: nat, c: Conn) {
    && CursorInv(task, c)
    && Durable(c.sent) <= Admit(c.cursor.floor, all)
    && (IsOpen(c) ==> FeedInv(task, maxsize, all, fanned, c) && ReplayInv(task, all, c))
  }

  lemma AdmitPrefix(s: int, a: seq<Frame>, b: seq<Frame>)
    requires a <= b
    ensures Admit(s, a) <= Admit(s, b)
  {
    assert b == a + b[|a|..];
    AdmitConcat(s, a, b[|a|..]);
  }

  lemma DurablePrefix(a: seq<Frame>, b: seq<Frame>)
    requires a <= b
    ensures Durable(a) <= Durable(b)
  {
    assert b == a + b[|a|..];
    DurableConcat(a, b[|a|..]);
  }

  lemma ReshownFramesAddNothing(s: int, all: seq<Frame>, start: nat, read: nat, end: nat)
    requires start <= end <= read <= |all|
    ensures Admit(CursorAfter(s, all[..read]), all[start..end]) == []
    ensures CursorAfter(CursorAfter(s, all[..read]), all[start..end]) == CursorAfter(s, all[..read])
  {
    var seen := all[..read];
    CursorCovers(s, seen);
    forall f | f in all[start..end] ensures SeqOf(f) <= CursorAfter(s, seen) {
      var i :| start <= i < end && all[i] == f;
      assert seen[i] == f;
    }
    AdmitNone(CursorAfter(s, seen), all[start..end]);
  }

  /** Frames a cursor has already been shown are dropped, and only the new ones add anything. */
  lemma ReshownFramesAreDropped(s: int, all: seq<Frame>, start: nat, read: nat, end: nat)
    requires start <= read <= end <= |all|
    ensures Admit(s, all[..read]) + Admit(CursorAfter(s, all[..read]), all[start..end]) == Admit(s, all[..end])
  {
    var seen, old_, fresh_ := all[..read], all[start..read], all[read..end];
    var at := CursorAfter(s, seen);
    assert all[start..end] == old_ + fresh_;
    ReshownFramesAddNothing(s, all, start, read, read);
    AdmitConcat(at, old_, fresh_);
    assert all[..end] == seen + fresh_;
    AdmitConcat(s, seen, fresh_);
  }

  /** Subscribe before replay: a replay that read at least what was fanned out before the
      subscription, followed by any prefix of what was fanned out after it, has no gap. */
  lemma OverlapHasNoGap(s: int, all: seq<Frame>, start: nat, read: nat, end: nat)
    requires start <= read <= |all| && start <= end <= |all|
    ensures Admit(s, all[..read]) + Admit(CursorAfter(s, all[..read]), all[start..end]) <= Admit(s, all)
    ensures end >= read ==>
              Admit(s, all[..read]) + Admit(CursorAfter(s, all[..read]), all[start..end]) == Admit(s, all[..end])
  {
    hide Admit;
    hide CursorAfter;
    if end < read {
      ReshownFramesAddNothing(s, all, start, read, end);
      AdmitPrefix(s, all[..read], all);
    } else {
      ReshownFramesAreDropped(s, all, start, read, end);
      AdmitPrefix(s, all[..end], all);
    }
  }

  /** What an open connection has written is always a prefix of what it owes. */
  lemma SentIsPrefix(task: string, maxsize: nat, all: seq<Frame>, fanned: nat, c: Conn)
    requires CursorInv(task, c) && FeedInv(task, maxsize, all, fanned, c) && ReplayInv(task, all, c)
    ensures Durable(c.sent) <= Admit(c.cursor.floor, all)
  {
    hide Admit;
    hide CursorAfter;
    hide Durable;
    hide Thinned;
    var s := c.cursor.floor;
    if c.replay.None? {
      assert Passed(c) == [];
      AdmitNone(s, []);
    } else if c.channel.reader.Replaying? {
      assert Passed(c) == c.replay.value[..c.sentReplay];
      AdmitPrefix(s, c.replay.value[..c.sentReplay], c.replay.value);
      AdmitPrefix(s, all[..c.read], all);
    } else {
      assert c.replay.value[..c.sentReplay] == c.replay.value;
      AdmitConcat(s, c.replay.value, c.channel.emitted);
      CursorCovers(s, c.replay.value);
      AdmitDurable(CursorAfter(s, c.replay.value), c.channel.emitted);
      var end := LiveDurable(task, maxsize, all, fanned, c);
      OverlapHasNoGap(s, all, c.start, c.read, end);
    }
  }

  /** The durable frames the reader took are a stretch of the stream from the subscription on. */
  lemma LiveDurable(task: string, maxsize: nat, all: seq<Frame>, fanned: nat, c: Conn) returns (end: nat)
    requires FeedInv(task, maxsize, all, fanned, c)
    ensures c.start <= end <= |all|
    ensures Durable(c.channel.emitted) == all[c.start..end]
  {
    hide Durable;
    hide Thinned;
    var offered := c.channel.offered;
    var k := EmittedIsPrefix(c.channel, maxsize);
    assert forall f :: f in offered[..k] ==> f in offered + c.inflight;
    ThinnedKeepsDurable(offered[..k], c.channel.emitted);
    DurablePrefix(offered[..k], offered + c.inflight);
    end := c.start + |Durable(c.channel.emitted)|;
  }

  // Server steps ---------------------------------------------------------------

  lemma DurableOne(frames: seq<Frame>, f: Frame)
    ensures Durable(frames + [f]) == Durable(frames) + if IsDurable(f) then [f] else []
  {
    assert (frames + [f])[..|frames|] == frames;
  }

  lemma AdmitOne(s: int, frames: seq<Frame>, f: Frame)
    ensures Admit(s, frames + [f]) == Admit(s, frames) + if SeqOf(f) > CursorAfter(s, frames) then [f] else []
    ensures CursorAfter(s, frames + [f])
        == if SeqOf(f) > CursorAfter(s, frames) then SeqOf(f) else CursorAfter(s, frames)
    ensures CursorAfter(s, frames) >= s
  {
    assert (frames + [f])[..|frames|] == frames;
    CursorCovers(s, frames);
  }

  lemma ForwardKeepsCursor(task: string, c: Conn, next: Conn, f: Frame)
    requires CursorInv(task, c)
    requires IsDurable(f) ==> f.task == Some(task)
    requires next.since == c.since
    requires next.cursor == Moved(c.cursor, f)
    requires next.sent == if Accepts(c.cursor, f) then c.sent + [f] else c.sent
    requires Passed(next) == Passed(c) + [f]
    ensures CursorInv(task, next)
  {
    hide Admit;
    hide CursorAfter;
    hide Durable;
    hide Passed;
    AdmitOne(c.cursor.floor, Passed(c), f);
    DurableOne(c.sent, f);
  }

  lemma SendKeepsServer(task: string, maxsize: nat, all: seq<Frame>, fanned: nat, c: Conn)
    requires ServerInv(task, maxsize, all, fanned, c)
    ensures ServerInv(task, maxsize, all, fanned, SendNext(c))
  {
    hide Admit;
    hide CursorAfter;
    hide Durable;
    hide Moved;
    hide Accepts;
    hide Thinned;
    var next := SendNext(c);
    if IsOpen(c) && c.replay.Some? && c.sentReplay < |c.replay.value| {
      var f := c.replay.value[c.sentReplay];
      assert f in c.replay.value;
      assert c.channel.emitted == [];
      assert c.replay.value[..c.sentReplay + 1] == c.replay.value[..c.sentReplay] + [f];
      assert Passed(next) == Passed(c) + [f];
      ForwardKeepsCursor(task, c, next, f);
      SentIsPrefix(task, maxsize, all, fanned, next);
    }
  }

  lemma GoLiveKeepsServer(task: string, maxsize: nat, all: seq<Frame>, fanned: nat, c: Conn)
    requires ServerInv(task, maxsize, all, fanned, c)
    ensures ServerInv(task, maxsize, all, fanned, GoLive(c, maxsize))
  {
    hide Admit;
    hide CursorAfter;
    hide ChannelInv;
    var next := GoLive(c, maxsize);
    if next != c {
      var done := Frame(None, None, None, ReplayDone);
      StepKeepsInv(c.channel, maxsize, GoingLive);
      DurableConcat(c.sent, [done]);
      assert Durable([done]) == [];
      assert Passed(next) == Passed(c);
    }
  }

  lemma OfferKeepsServer(task: string, maxsize: nat, all: seq<Frame>, fanned: nat, c: Conn)
    requires ServerInv(task, maxsize, all, fanned, c)
    ensures ServerInv(task, maxsize, all, fanned, OfferNext(c, maxsize))
  {
    hide Admit;
    hide CursorAfter;
    hide Durable;
    hide ChannelInv;
    hide Tagged;
    hide DeltasAreSynthetic;
    var next := OfferNext(c, maxsize);
    if next != c {
      StepKeepsInv(c.channel, maxsize, Offering(c.inflight[0]));
      assert next.channel.offered + next.inflight == c.channel.offered + c.inflight;
      assert Passed(next) == Passed(c);
    }
  }

  lemma CloseKeepsServer(task: string, maxsize: nat, all: seq<Frame>, fanned: nat, c: Conn)
    requires ServerInv(task, maxsize, all, fanned, c)
    ensures ServerInv(task, maxsize, all, fanned, c.(channel := StepChannel(c.channel, maxsize, ClosingFromOutside)))
  {
    hide Admit;
    hide CursorAfter;
    hide Durable;
    hide ChannelInv;
    var next := c.(channel := StepChannel(c.channel, maxsize, ClosingFromOutside));
    if IsOpen(c) {
      StepKeepsInv(c.channel, maxsize, ClosingFromOutside);
    }
    assert Passed(next) == Passed(c);
  }

  lemma LiveKeepsServer(task: string, maxsize: nat, all: seq<Frame>, fanned: nat, c: Conn, step: ChannelStep)
    requires ServerInv(task, maxsize, all, fanned, c)
    ensures ServerInv(task, maxsize, all, fanned, LiveStep(c, maxsize, step))
  {
    hide Admit;
    hide CursorAfter;
    hide Durable;
    hide Moved;
    hide Accepts;
    hide ChannelInv;
    hide Thinned;
    var next := LiveStep(c, maxsize, step);
    if IsOpen(c) && (step.CheckingFlag? || step.WakingUp? || step.TimingOut?) {
      var mid := c.(channel := StepChannel(c.channel, maxsize, step));
      StepKeepsInv(c.channel, maxsize, step);
      if |mid.channel.emitted| == |c.channel.emitted| {
        assert Passed(next) == Passed(c);
      } else {
        var f := c.channel.inbox.items[0];
        assert mid.channel.emitted == c.channel.emitted + [f];
        TakenIsTagged(task, maxsize, all, fanned, c, mid, f);
        assert Passed(next) == Passed(c) + [f];
        ForwardKeepsCursor(task, c, next, f);
        SentIsPrefix(task, maxsize, all, fanned, next);
      }
    }
  }

  lemma TakenIsTagged(task: string, maxsize: nat, all: seq<Frame>, fanned: nat, c: Conn, next: Conn, f: Frame)
    requires FeedInv(task, maxsize, all, fanned, c)
    requires ChannelInv(next.channel, maxsize) && next.channel.offered == c.channel.offered
    requires next.channel.emitted == c.channel.emitted + [f]
    ensures IsDurable(f) ==> f.task == Some(task)
  {
    var k := EmittedIsPrefix(next.channel, maxsize);
    assert f in next.channel.emitted;
    ThinnedIsSubset(next.channel.offered[..k], next.channel.emitted);
    assert f in c.channel.offered + c.inflight;
  }

  lemma {:induction false} ThinnedIsSubset(xs: seq<Frame>, ys: seq<Frame>)
    requires Thinned(xs, ys)
    ensures forall f :: f in ys ==> f in xs
  {
    if xs != [] {
      var x, front := xs[|xs| - 1], xs[..|xs| - 1];
      assert xs == front + [x];
      if ys != [] && ys[|ys| - 1] == x && Thinned(front, ys[..|ys| - 1]) {
        ThinnedIsSubset(front, ys[..|ys| - 1]);
        assert ys == ys[..|ys| - 1] + [x];
      } else {
        ThinnedIsSubset(front, ys);
      }
    }
  }

  /** Skipping the envelopes at or below the floor changes nothing the cursor lets through. */
  lemma {:induction false} FloorSkipsNothing(log: seq<Envelope>, after: Option<nat>, s: int)
    requires s == if after.Some? then after.value else -1
    ensures Admit(s, AllFrames(EventsAfter(log, after))) == Admit(s, AllFrames(log))
    ensures CursorAfter(s, AllFrames(EventsAfter(log, after))) == CursorAfter(s, AllFrames(log))
  {
    if log != [] {
      var front, env := log[..|log| - 1], log[|log| - 1];
      FloorSkipsNothing(front, after, s);
      var kept := EventsAfter(front, after);
      AdmitConcat(s, AllFrames(front), Translate(env));
      CursorCovers(s, AllFrames(front));
      if PastSeq(after)(env) {
        assert EventsAfter(log, after) == kept + [env];
        assert (kept + [env])[..|kept|] == kept;
        AdmitConcat(s, AllFrames(kept), Translate(env));
      } else {
        assert EventsAfter(log, after) == kept;
        AdmitOneEnvelope(CursorAfter(s, AllFrames(front)), env);
      }
    }
  }

  lemma {:induction false} ReplayIsTagged(task: string, log: seq<Envelope>, frames: seq<Frame>)
    requires forall i :: 0 <= i < |log| ==> log[i].taskId == task
    requires exists after :: Durable(frames) == AllFrames(EventsAfter(log, after))
    ensures Tagged(task, frames)
  {
    var after :| Durable(frames) == AllFrames(EventsAfter(log, after));
    var events := EventsAfter(log, after);
    forall i | 0 <= i < |events| ensures events[i].taskId == task {
      assert events[i] in events;
    }
    TaskOfFrames(task, events);
    forall f | f in frames && IsDurable(f) ensures f.task == Some(task) {
      assert f in Durable(frames);
    }
  }

  lemma {:induction false} TaskOfFrames(task: string, log: seq<Envelope>)
    requires forall i :: 0 <= i < |log| ==> log[i].taskId == task
    ensures forall f :: f in AllFrames(log) ==> f.task == Some(task) && IsDurable(f)
  {
    if log != [] {
      TaskOfFrames(task, log[..|log| - 1]);
    }
  }

  lemma ReadKeepsServer(task: string, maxsize: nat, log: seq<Envelope>, fanned: nat, c: Conn,
                        subtasks: map<string, seq<Envelope>>, fork: Option<Fork>)
    requires IsStream(task, log)
    requires ServerInv(task, maxsize, AllFrames(log), fanned, c)
    ensures ServerInv(task, maxsize, AllFrames(log), fanned, Read(c, task, log, subtasks, fork))
  {
    hide Admit;
    hide CursorAfter;
    hide Durable;
    hide ReplayFrames;
    hide ChannelInv;
    hide AllFrames;
    hide EventsAfter;
    var next := Read(c, task, log, subtasks, fork);
    if c.replay.None? && IsOpen(c) {
      var frames := next.replay.value;
      var after := ReplayFloor(c.since);
      var s := c.cursor.floor;
      ReplayIsRederivation(task, log, subtasks, fork, c.since);
      ReplayIsTagged(task, log, frames);
      AdmitDurable(s, frames);
      FloorSkipsNothing(log, after, s);
      assert AllFrames(log)[..next.read] == AllFrames(log);
      assert frames[..0] == [];
      assert Passed(next) == Passed(c);
    }
  }

  // ---------------------------------------------------------------------------
  // The client half
  // ---------------------------------------------------------------------------

  /** The client holds the first `n` first frames of the stream, each once, and its conversation is their fold. */
  ghost predicate ClientInv(task: string, log: seq<Envelope>, conv: State, history: seq<Frame>) {
    var first, n := FirstFrames(log), |Durable(history)|;
    && n <= |first|
    && Durable(history) == first[..n]
    && conv == FoldEvents(INITIAL, history)
    && conv.cursors == (if n == 0 then map[] else map[task := SeqAt(first, n)])
    && conv.lastSeq == SeqAt(first, n)
  }

  /** Where the connection resumed in the stream of first frames. */
  function ResumedAt(c: Conn): nat {
    if c.since.Some? && c.since.value > 0 then c.held else 0
  }

  ghost predicate LinkInv(log: seq<Envelope>, history: seq<Frame>, c: Conn) {
    var first, n := FirstFrames(log), |Durable(history)|;
    && c.held <= n <= |first|
    && c.received <= |c.sent|
    && c.cursor.floor == SeqAt(first, ResumedAt(c))
    && n == Max(c.held, ResumedAt(c) + |Durable(c.sent[..c.received])|)
  }

  function Max(a: nat, b: nat): nat {
    if a < b then b else a
  }

  lemma FoldGrows(s: State, history: seq<Frame>, f: Frame)
    ensures FoldEvents(s, history + [f]) == FoldEvent(FoldEvents(s, history), f)
  {
    assert (history + [f])[..|history|] == history;
  }

  lemma ReceiveSynthetic(task: string, log: seq<Envelope>, conv: State, history: seq<Frame>, f: Frame)
    requires ClientInv(task, log, conv, history) && !IsDurable(f)
    ensures ClientInv(task, log, FoldEvent(conv, f), history + [f])
    ensures Durable(history + [f]) == Durable(history)
  {
    hide FoldEvent;
    hide FoldEvents;
    hide Durable;
    hide FirstFrames;
    FoldGrows(INITIAL, history, f);
    DurableOne(history, f);
    FoldMovesOneCursor(conv, f);
  }

  lemma ReceiveFresh(task: string, log: seq<Envelope>, conv: State, history: seq<Frame>, f: Frame)
    requires ClientInv(task, log, conv, history) && IsStream(task, log)
    requires |Durable(history)| < |FirstFrames(log)| && f == FirstFrames(log)[|Durable(history)|]
    ensures IsFresh(conv, f)
    ensures ClientInv(task, log, FoldEvent(conv, f), history + [f])
    ensures |Durable(history + [f])| == |Durable(history)| + 1
  {
    hide FoldEvent;
    hide FoldEvents;
    hide Durable;
    hide FirstFrames;
    var first, n := FirstFrames(log), |Durable(history)|;
    FirstFramesIncrease(task, log);
    assert f in first;
    assert n > 0 ==> SeqOf(first[n - 1]) < SeqOf(f);
    FoldGrows(INITIAL, history, f);
    DurableOne(history, f);
    FoldMovesOneCursor(conv, f);
    assert conv.cursors[task := SeqOf(f)] == map[task := SeqOf(f)];
    assert task in map[task := SeqOf(f)];
  }

  lemma ReceiveStale(task: string, log: seq<Envelope>, conv: State, history: seq<Frame>, f: Frame, k: nat)
    requires ClientInv(task, log, conv, history) && IsStream(task, log)
    requires k < |Durable(history)| && f == FirstFrames(log)[k]
    ensures !IsFresh(conv, f) && FoldEvent(conv, f) == conv
  {
    hide FoldEvents;
    hide FoldRecognised;
    hide Durable;
    hide FirstFrames;
    var first, n := FirstFrames(log), |Durable(history)|;
    FirstFramesIncrease(task, log);
    assert f in first;
    assert k < n - 1 ==> SeqOf(f) < SeqOf(first[n - 1]);
  }

  lemma ReceiveKeepsClient(task: string, maxsize: nat, w: World)
    requires IsStream(task, w.log) && ClientInv(task, w.log, w.conv, w.history)
    requires w.conn.Some? && LinkInv(w.log, w.history, w.conn.value)
    requires ServerInv(task, maxsize, AllFrames(w.log), w.fanned, w.conn.value)
    ensures var next := ReceiveNext(w, w.conn.value);
            && ClientInv(task, next.log, next.conv, next.history)
            && LinkInv(next.log, next.history, next.conn.value)
  {
    hide FoldEvents;
    hide FoldRecognised;
    hide AllFrames;
    hide FirstFrames;
    hide Admit;
    hide CursorAfter;
    hide ClientInv;
    hide CursorInv;
    hide FeedInv;
    hide ReplayInv;
    hide Durable;
    hide FoldEvent;
    var c := w.conn.value;
    if c.received < |c.sent| {
      var f := c.sent[c.received];
      var before, after := c.sent[..c.received], c.sent[..c.received + 1];
      assert after == before + [f];
      DurableOne(before, f);
      if !IsDurable(f) {
        ReceiveSynthetic(task, w.log, w.conv, w.history, f);
      } else {
        var first, n := FirstFrames(w.log), |Durable(w.history)|;
        var p, k := ResumedAt(c), |Durable(before)|;
        Resume(task, w.log, p);
        DurablePrefix(after, c.sent);
        assert Durable(after) <= first[p..];
        assert Durable(after)[k] == f;
        assert f == first[p + k];
        if p + k < n {
          ReceiveStale(task, w.log, w.conv, w.history, f, p + k);
        } else {
          ReceiveFresh(task, w.log, w.conv, w.history, f);
        }
      }
    }
  }

  lemma ReceiveKeepsServer(task: string, maxsize: nat, all: seq<Frame>, fanned: nat, c: Conn, received: nat)
    requires ServerInv(task, maxsize, all, fanned, c)
    ensures ServerInv(task, maxsize, all, fanned, c.(received := received))
  {
    hide Admit;
    hide CursorAfter;
    hide Durable;
    hide ChannelInv;
    assert Passed(c.(received := received)) == Passed(c);
  }

  // ---------------------------------------------------------------------------
  // Every run
  // ---------------------------------------------------------------------------

  ghost predicate Inv(task: string, maxsize: nat, w: World) {
    && IsStream(task, w.log)
    && w.fanned <= |AllFrames(w.log)|
    && ClientInv(task, w.log, w.conv, w.history)
    && (w.conn.Some? ==>
          && ServerInv(task, maxsize, AllFrames(w.log), w.fanned, w.conn.value)
          && LinkInv(w.log, w.history, w.conn.value))
  }

  lemma CommitKeepsServer(task: string, maxsize: nat, all: seq<Frame>, more: seq<Frame>, fanned: nat, c: Conn)
    requires ServerInv(task, maxsize, all, fanned, c)
    ensures ServerInv(task, maxsize, all + more, fanned, c)
  {
    hide Admit;
    hide CursorAfter;
    hide Durable;
    hide ChannelInv;
    hide CursorInv;
    hide Tagged;
    hide DeltasAreSynthetic;
    AdmitPrefix(c.cursor.floor, all, all + more);
    if IsOpen(c) {
      assert (all + more)[c.start..fanned] == all[c.start..fanned];
      if c.replay.Some? {
        assert (all + more)[..c.read] == all[..c.read];
      }
    }
  }

  lemma CommitKeepsInv(task: string, maxsize: nat, w: World, env: Envelope)
    requires Inv(task, maxsize, w) && Extends(task, w.log, env)
    ensures Inv(task, maxsize, w.(log := w.log + [env]))
  {
    hide ServerInv;
    hide FoldEvents;
    hide Durable;
    hide Translate;
    hide FirstFrame;
    var longer := w.log + [env];
    assert longer[..|w.log|] == w.log;
    assert AllFrames(longer) == AllFrames(w.log) + Translate(env);
    var first, first' := FirstFrames(w.log), FirstFrames(longer);
    assert first' == first + FirstFrame(env);
    var n := |Durable(w.history)|;
    assert first'[..n] == first[..n];
    if w.conn.Some? {
      CommitKeepsServer(task, maxsize, AllFrames(w.log), Translate(env), w.fanned, w.conn.value);
    }
  }

  lemma {:induction false} NoDurableDeltas(log: seq<Envelope>)
    ensures forall f :: f in AllFrames(log) ==> !IsDelta(f)
  {
    if log != [] {
      NoDurableDeltas(log[..|log| - 1]);
      NoDeltaEvents(log[|log| - 1].payload);
    }
  }

  lemma NoDeltaEvents(p: Payload)
    ensures forall e :: e in RootEvents(p) ==> !e.Delta?
  {
    if p.MessagesAppended? {
      NoDeltaMessages(p.messages);
    }
  }

  lemma {:induction false} NoDeltaMessages(messages: seq<Message>)
    ensures forall e :: e in FromMessages(messages) ==> !e.Delta?
  {
    if messages != [] {
      NoDeltaMessages(messages[..|messages| - 1]);
      var last := messages[|messages| - 1];
      if last.FromAssistant? {
        NoDeltaBlocks(last.blocks);
      }
    }
  }

  lemma {:induction false} NoDeltaBlocks(blocks: seq<Block>)
    ensures forall e :: e in FromBlocks(blocks) ==> !e.Delta?
  {
    if blocks != [] {
      NoDeltaBlocks(blocks[..|blocks| - 1]);
    }
  }

  lemma ScheduleKeepsLink(log: seq<Envelope>, history: seq<Frame>, c: Conn, f: Frame)
    requires LinkInv(log, history, c)
    ensures LinkInv(log, history, Schedule(Some(c), f).value)
  {
    hide FirstFrames;
    hide Durable;
  }

  /** Scheduling one more frame, durable (the next of the stream) or synthetic. */
  lemma ScheduleKeepsServer(task: string, maxsize: nat, all: seq<Frame>, fanned: nat, c: Conn, f: Frame)
    requires ServerInv(task, maxsize, all, fanned, c)
    requires IsDurable(f) ==> fanned < |all| && f == all[fanned] && f.task == Some(task) && !IsDelta(f)
    ensures ServerInv(task, maxsize, all, if IsDurable(f) then fanned + 1 else fanned, Schedule(Some(c), f).value)
  {
    hide Admit;
    hide CursorAfter;
    hide Durable;
    hide ChannelInv;
    if IsOpen(c) {
      var next := Schedule(Some(c), f).value;
      assert next.channel.offered + next.inflight == (c.channel.offered + c.inflight) + [f];
      DurableOne(c.channel.offered + c.inflight, f);
      if IsDurable(f) {
        assert all[c.start..fanned + 1] == all[c.start..fanned] + [f];
      }
      assert Passed(next) == Passed(c);
    }
  }

  lemma FanOutKeepsInv(task: string, maxsize: nat, w: World)
    requires Inv(task, maxsize, w)
    ensures Inv(task, maxsize, Next(w, task, maxsize, FanOut))
  {
    hide FoldEvents;
    hide AllFrames;
    hide FirstFrames;
    hide ClientInv;
    hide ServerInv;
    hide LinkInv;
    if w.fanned < |AllFrames(w.log)| && w.conn.Some? {
      var f := AllFrames(w.log)[w.fanned];
      assert f in AllFrames(w.log);
      TaskOfFrames(task, w.log);
      NoDurableDeltas(w.log);
      ScheduleKeepsServer(task, maxsize, AllFrames(w.log), w.fanned, w.conn.value, f);
      ScheduleKeepsLink(w.log, w.history, w.conn.value, f);
    }
  }

  lemma ConnectKeepsInv(task: string, maxsize: nat, w: World)
    requires Inv(task, maxsize, w) && w.conn.None?
    ensures Inv(task, maxsize, w.(conn := Some(Open(w))))
  {
    hide AllFrames;
    hide FirstFrames;
    hide FoldEvents;
    hide IsStream;
    var c := Open(w);
    var all, first := AllFrames(w.log), FirstFrames(w.log);
    FirstFramesIncrease(task, w.log);
    var n := |Durable(w.history)|;
    assert n > 0 ==> first[n - 1] in first;
    assert Passed(c) == [] && Durable(c.sent) == [] && Admit(c.cursor.floor, []) == [];
    assert all[w.fanned..w.fanned] == [] && Durable([]) == [];
    assert c.channel.offered + c.inflight == [];
    assert ChannelInv(FRESH_CHANNEL, maxsize);
    assert c.sent[..0] == [];
  }

  lemma ServerNextKeepsServer(task: string, maxsize: nat, log: seq<Envelope>, fanned: nat, c: Conn, step: Step)
    requires IsStream(task, log) && ServerInv(task, maxsize, AllFrames(log), fanned, c)
    ensures ServerInv(task, maxsize, AllFrames(log), fanned, ServerNext(c, task, maxsize, log, step))
  {
    hide ServerInv;
    hide AllFrames;
    hide OfferNext;
    hide SendNext;
    hide GoLive;
    hide LiveStep;
    hide Read;
    hide StepChannel;
    var all := AllFrames(log);
    match step {
      case RunOffer => OfferKeepsServer(task, maxsize, all, fanned, c);
      case CloseFromOutside => CloseKeepsServer(task, maxsize, all, fanned, c);
      case ReadReplay(subtasks, fork) => ReadKeepsServer(task, maxsize, log, fanned, c, subtasks, fork);
      case SendReplayed => SendKeepsServer(task, maxsize, all, fanned, c);
      case SendReplayDone => GoLiveKeepsServer(task, maxsize, all, fanned, c);
      case ReaderStep(s) => LiveKeepsServer(task, maxsize, all, fanned, c, s);
      case _ =>
    }
  }

  /** Server steps only append to the wire. */
  lemma ServerNextAppends(c: Conn, task: string, maxsize: nat, log: seq<Envelope>, step: Step)
    ensures var d := ServerNext(c, task, maxsize, log, step);
            && c.sent <= d.sent && d.received == c.received && d.since == c.since && d.held == c.held
            && d.cursor.floor == c.cursor.floor
  {
    hide StepChannel;
    hide ReplayFrames;
    hide Accepts;
  }

  lemma ServerNextKeepsLink(log: seq<Envelope>, history: seq<Frame>, c: Conn, task: string, maxsize: nat, step: Step)
    requires LinkInv(log, history, c)
    ensures LinkInv(log, history, ServerNext(c, task, maxsize, log, step))
  {
    hide ServerNext;
    hide FirstFrames;
    hide Durable;
    ServerNextAppends(c, task, maxsize, log, step);
    assert ServerNext(c, task, maxsize, log, step).sent[..c.received] == c.sent[..c.received];
  }

  lemma NextKeepsInv(task: string, maxsize: nat, w: World, step: Step)
    requires Inv(task, maxsize, w)
    ensures Inv(task, maxsize, Next(w, task, maxsize, step))
  {
    hide ClientInv;
    hide ServerInv;
    hide LinkInv;
    hide AllFrames;
    hide FirstFrames;
    hide FoldEvents;
    hide Open;
    hide Durable;
    hide ServerNext;
    match step {
      case Commit(env) =>
        if Extends(task, w.log, env) {
          CommitKeepsInv(task, maxsize, w, env);
        }
      case FanOut => FanOutKeepsInv(task, maxsize, w);
      case PushSynthetic(f) =>
        if !IsDurable(f) && w.conn.Some? {
          ScheduleKeepsServer(task, maxsize, AllFrames(w.log), w.fanned, w.conn.value, f);
          ScheduleKeepsLink(w.log, w.history, w.conn.value, f);
        }
      case Drop =>
      case Connect =>
        if w.conn.None? {
          ConnectKeepsInv(task, maxsize, w);
        }
      case Receive =>
        if w.conn.Some? {
          ReceiveKeepsClient(task, maxsize, w);
          ReceiveKeepsServer(task, maxsize, AllFrames(w.log), w.fanned, w.conn.value, w.conn.value.received + 1);
        }
      case _ =>
        if w.conn.Some? {
          ServerNextKeepsServer(task, maxsize, w.log, w.fanned, w.conn.value, step);
          ServerNextKeepsLink(w.log, w.history, w.conn.value, task, maxsize, step);
        }
    }
  }

  lemma StartHolds(task: string, maxsize: nat)
    ensures Inv(task, maxsize, START)
  {
  }

  lemma {:induction false} RunKeepsInv(task: string, maxsize: nat, steps: seq<Step>)
    ensures Inv(task, maxsize, Run(task, maxsize, steps))
  {
    hide ClientInv;
    hide ServerInv;
    hide LinkInv;
    hide Next;
    if steps == [] {
      StartHolds(task, maxsize);
    } else {
      RunKeepsInv(task, maxsize, steps[..|steps| - 1]);
      NextKeepsInv(task, maxsize, Run(task, maxsize, steps[..|steps| - 1]), steps[|steps| - 1]);
    }
  }

  function AtMost(cursor: int): Frame -> bool {
    (f: Frame) => SeqOf(f) <= cursor
  }

  /** Gap-free exactly-once delivery: in every interleaving, the durable frames the client has applied
      are exactly the first frame of every frame-producing envelope with a seq at or below its cursor,
      in order, each once; its conversation is the fold of what it applied; and the value it will
      resume from is above no cursor it holds. */
  lemma GapFreeExactlyOnce(task: string, maxsize: nat, steps: seq<Step>)
    ensures var w := Run(task, maxsize, steps);
            && Durable(w.history) == Filter(AtMost(w.conv.lastSeq), FirstFrames(w.log))
            && w.conv == FoldEvents(INITIAL, w.history)
            && forall scope :: scope in w.conv.cursors ==> w.conv.lastSeq <= w.conv.cursors[scope]
  {
    hide ServerInv;
    hide LinkInv;
    hide FoldEvents;
    hide FirstFrames;
    hide Durable;
    hide AllFrames;
    hide Run;
    hide Filter;
    var w := Run(task, maxsize, steps);
    RunKeepsInv(task, maxsize, steps);
    FirstFramesIncrease(task, w.log);
    CutBySeq(FirstFrames(w.log), |Durable(w.history)|);
  }

  /** In an increasing sequence, the first `n` frames are those at or below the seq of the `n`-th. */
  lemma CutBySeq(first: seq<Frame>, n: nat)
    requires n <= |first| && Increasing(first) && forall f :: f in first ==> IsDurable(f)
    ensures Filter(AtMost(SeqAt(first, n)), first) == first[..n]
  {
    hide Filter;
    var p := AtMost(SeqAt(first, n));
    var low, high := first[..n], first[n..];
    assert first == low + high;
    CutParts(first, n);
    hide Increasing;
    FilterConcat(p, low, high);
    FilterAll(p, low);
    FilterNone(p, high);
  }

  lemma CutParts(first: seq<Frame>, n: nat)
    requires n <= |first| && Increasing(first) && forall f :: f in first ==> IsDurable(f)
    ensures forall f :: f in first[..n] ==> AtMost(SeqAt(first, n))(f)
    ensures forall f :: f in first[n..] ==> !AtMost(SeqAt(first, n))(f)
  {
    forall f | f in first[..n] ensures AtMost(SeqAt(first, n))(f) {
      var i :| 0 <= i < n && first[i] == f;
      assert i < n - 1 ==> SeqOf(first[i]) < SeqOf(first[n - 1]);
    }
    forall f | f in first[n..] ensures !AtMost(SeqAt(first, n))(f) {
      var i :| 0 <= i < |first| - n && first[n..][i] == f;
      assert first[n + i] == f && f in first;
      assert n > 0 ==> SeqOf(first[n - 1]) < SeqOf(first[n + i]);
    }
  }

  /** Nothing is left anywhere on the way to the client. */
  ghost predicate Drained(w: World) {
    && w.conn.Some?
    && w.fanned == |AllFrames(w.log)|
    && var c := w.conn.value;
       && IsOpen(c) && !c.channel.reader.Replaying? && !c.channel.inbox.overflowed
       && c.inflight == [] && c.channel.inbox.items == []
       && c.received == |c.sent|
  }

  /** And nothing is missing: once a connection that has not overflowed is drained, the client holds
      the first frame of every frame-producing envelope of the whole log. */
  lemma DrainedIsComplete(task: string, maxsize: nat, steps: seq<Step>)
    requires Drained(Run(task, maxsize, steps))
    ensures Durable(Run(task, maxsize, steps).history) == FirstFrames(Run(task, maxsize, steps).log)
  {
    hide FoldEvents;
    hide FirstFrames;
    hide Durable;
    hide AllFrames;
    hide Run;
    hide Admit;
    hide CursorAfter;
    var w := Run(task, maxsize, steps);
    RunKeepsInv(task, maxsize, steps);
    var c, all := w.conn.value, AllFrames(w.log);
    var s := c.cursor.floor;
    var replayed, emitted := c.replay.value, c.channel.emitted;
    assert c.channel.offered + c.inflight == c.channel.offered;
    assert c.channel.emitted + c.channel.inbox.items == emitted;
    ThinnedKeepsDurable(c.channel.offered, emitted);
    assert Durable(emitted) == all[c.start..];
    assert replayed[..c.sentReplay] == replayed;
    AdmitConcat(s, replayed, emitted);
    CursorCovers(s, replayed);
    AdmitDurable(CursorAfter(s, replayed), emitted);
    assert Durable(emitted) == all[c.start..|all|];
    OverlapHasNoGap(s, all, c.start, c.read, |all|);
    assert all[..|all|] == all;
    assert Durable(c.sent) == Admit(s, all);
    assert c.sent[..c.received] == c.sent;
    Resume(task, w.log, ResumedAt(c));
    var first := FirstFrames(w.log);
    assert first[..|first|] == first;
  }
}
