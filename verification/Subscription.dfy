/** One SSE stream's bounded inbox and its reader (noeta/agent/host/hub.py, noeta/agent/api/events.py). */
module Subscriptions {
  import opened Collections
  import opened UIEvents

  datatype Inbox = Inbox(items: seq<Frame>, overflowed: bool, dropped: nat)

  /** The index of the oldest buffered delta, or the length when there is none. */
  function OldestDelta(items: seq<Frame>): (i: nat)
    ensures i <= |items|
    ensures i < |items| ==> IsDelta(items[i])
    ensures forall j :: 0 <= j < i ==> !IsDelta(items[j])
  {
    if items == [] then 0
    else
      var i := OldestDelta(items[..|items| - 1]);
      if i < |items| - 1 then i
      else if IsDelta(items[|items| - 1]) then |items| - 1
      else |items|
  }

  function Offered(inbox: Inbox, maxsize: nat, f: Frame): Inbox {
    if |inbox.items| < maxsize then inbox.(items := inbox.items + [f])
    else if IsDelta(f) then inbox.(dropped := inbox.dropped + 1)
    else
      var i := OldestDelta(inbox.items);
      if i < |inbox.items| then
        inbox.(items := inbox.items[..i] + inbox.items[i + 1..] + [f], dropped := inbox.dropped + 1)
      else inbox.(overflowed := true)
  }

  /** The head of the queue, taken by the reader; nothing when the queue is empty. */
  function Taken(inbox: Inbox): Inbox {
    if inbox.items == [] then inbox else inbox.(items := inbox.items[1..])
  }

  class Subscription {
    const maxsize: nat
    var items: seq<Frame>
    var overflowed: bool
    var dropped: nat

    function State(): Inbox
      reads this
    {
      Inbox(items, overflowed, dropped)
    }

    constructor (maxsize: nat)
      ensures this.maxsize == maxsize && State() == Inbox([], false, 0)
    {
      this.maxsize := maxsize;
      items, overflowed, dropped := [], false, 0;
    }

    /** One offered frame joins the queue, takes the place of a buffered delta, or is dropped. */
    method Offer(f: Frame)
      modifies this
      ensures State() == Offered(old(State()), maxsize, f)
    {
      if |items| < maxsize {
        items := items + [f];
        return;
      }
      if IsDelta(f) {
        dropped := dropped + 1;
        return;
      }
      var index := 0;
      while index < |items|
        invariant index <= |items| && State() == old(State())
        invariant forall j :: 0 <= j < index ==> !IsDelta(items[j])
      {
        if IsDelta(items[index]) {
          items := items[..index] + items[index + 1..] + [f];
          dropped := dropped + 1;
          return;
        }
        index := index + 1;
      }
      overflowed := true;
    }

    method Close()
      modifies this
      ensures State() == old(State()).(overflowed := true)
    {
      overflowed := true;
    }

    /** The popping half of `next`, before it suspends or after it is woken. */
    method TakeNext() returns (f: Option<Frame>)
      modifies this
      ensures State() == Taken(old(State()))
      ensures f == if old(items) == [] then None else Some(old(items)[0])
    {
      if items == [] {
        return None;
      }
      f := Some(items[0]);
      items := items[1..];
    }
  }

  // ---------------------------------------------------------------------------
  // The inbox and its reader, as steps
  // ---------------------------------------------------------------------------

  /** Where the live loop stands: not started, about to check the flag, suspended in `next`, or ended. */
  datatype Reader = Replaying | Checking | Waiting | Ended

  /** `offered` and `emitted` are histories: every frame offered, every frame taken by the reader. */
  datatype Channel = Channel(inbox: Inbox, reader: Reader, offered: seq<Frame>, emitted: seq<Frame>)

  const FRESH_CHANNEL := Channel(Inbox([], false, 0), Replaying, [], [])

  datatype ChannelStep =
    | Offering(frame: Frame)
    | ClosingFromOutside
    | GoingLive
    | CheckingFlag
    | WakingUp
    | TimingOut

  function Take(c: Channel, then_: Reader): Channel {
    if c.inbox.items == [] then c.(reader := then_)
    else c.(inbox := Taken(c.inbox), reader := then_, emitted := c.emitted + [c.inbox.items[0]])
  }

  /** One step; a step that is not enabled changes nothing. The flag is tested before each `next`,
      and `next` suspends only on an empty queue. */
  function StepChannel(c: Channel, maxsize: nat, step: ChannelStep): Channel {
    match step
    case Offering(f) => c.(inbox := Offered(c.inbox, maxsize, f), offered := c.offered + [f])
    case ClosingFromOutside => c.(inbox := c.inbox.(overflowed := true))
    case GoingLive => if c.reader.Replaying? then c.(reader := Checking) else c
    case CheckingFlag =>
      if !c.reader.Checking? then c
      else if c.inbox.overflowed then c.(reader := Ended)
      else if c.inbox.items == [] then c.(reader := Waiting)
      else Take(c, Checking)
    case WakingUp => if c.reader.Waiting? then Take(c, Checking) else c
    case TimingOut => if c.reader.Waiting? then c.(reader := Checking) else c
  }

  /** Nothing but deltas was ever discarded. */
  ghost predicate Intact(c: Channel) {
    && Thinned(c.offered, c.emitted + c.inbox.items)
    && |c.offered| == |c.emitted| + |c.inbox.items| + c.inbox.dropped
  }

  /** Something else was discarded: the flag is up, what the reader already took is a thinned prefix,
      and a suspended reader will be woken to a full queue of frames that extend it. */
  ghost predicate Lossy(c: Channel, maxsize: nat) {
    && c.inbox.overflowed
    && (exists k :: 0 <= k <= |c.offered| && Thinned(c.offered[..k], c.emitted))
    && (c.reader.Waiting? ==>
          && |c.inbox.items| == maxsize
          && (forall f :: f in c.inbox.items ==> !IsDelta(f))
          && (exists k :: 0 <= k <= |c.offered| && Thinned(c.offered[..k], c.emitted + c.inbox.items)))
  }

  ghost predicate ChannelInv(c: Channel, maxsize: nat) {
    && |c.inbox.items| <= maxsize
    && (Intact(c) || Lossy(c, maxsize))
    && (c.reader.Replaying? ==> c.emitted == [])
  }

  lemma OfferKeepsIntact(c: Channel, maxsize: nat, f: Frame)
    requires Intact(c) && |c.inbox.items| <= maxsize
    requires var next := Offered(c.inbox, maxsize, f); next.overflowed ==> c.inbox.overflowed
    requires |c.inbox.items| < maxsize || IsDelta(f) || OldestDelta(c.inbox.items) < |c.inbox.items|
    ensures Intact(StepChannel(c, maxsize, Offering(f)))
  {
    hide Thinned;
    hide OldestDelta;
    var all, items := c.emitted + c.inbox.items, c.inbox.items;
    ThinnedKeep(c.offered, all, f);
    if |items| < maxsize {
      assert all + [f] == c.emitted + (items + [f]);
    } else if !IsDelta(f) {
      EvictKeepsThinned(c, f);
    }
  }

  lemma EvictKeepsThinned(c: Channel, f: Frame)
    requires Intact(c) && OldestDelta(c.inbox.items) < |c.inbox.items|
    ensures var items, i := c.inbox.items, OldestDelta(c.inbox.items);
            Thinned(c.offered + [f], c.emitted + (items[..i] + items[i + 1..] + [f]))
  {
    hide Thinned;
    var items, i := c.inbox.items, OldestDelta(c.inbox.items);
    var all, at := c.emitted + items, |c.emitted| + i;
    assert IsDelta(all[at]);
    ThinnedEvict(c.offered, all, at);
    hide OldestDelta;
    var rest := all[..at] + all[at + 1..];
    ThinnedKeep(c.offered, rest, f);
    assert rest + [f] == c.emitted + (items[..i] + items[i + 1..] + [f]);
  }

  lemma PrefixesGrow(offered: seq<Frame>, f: Frame, taken: seq<Frame>)
    requires exists k :: 0 <= k <= |offered| && Thinned(offered[..k], taken)
    ensures exists k :: 0 <= k <= |offered + [f]| && Thinned((offered + [f])[..k], taken)
  {
    var k :| 0 <= k <= |offered| && Thinned(offered[..k], taken);
    assert (offered + [f])[..k] == offered[..k];
  }

  lemma IntactHasPrefixes(c: Channel, j: nat)
    requires Thinned(c.offered, c.emitted + c.inbox.items) && j <= |c.inbox.items|
    ensures exists k :: 0 <= k <= |c.offered| && Thinned(c.offered[..k], c.emitted + c.inbox.items[..j])
  {
    var all := c.emitted + c.inbox.items;
    var k := ThinnedPrefix(c.offered, all, |c.emitted| + j);
    assert all[..|c.emitted| + j] == c.emitted + c.inbox.items[..j];
  }

  lemma OfferKeepsInv(c: Channel, maxsize: nat, f: Frame)
    requires ChannelInv(c, maxsize)
    ensures ChannelInv(StepChannel(c, maxsize, Offering(f)), maxsize)
  {
    var next := StepChannel(c, maxsize, Offering(f));
    var items := c.inbox.items;
    if Intact(c) {
      if |items| < maxsize || IsDelta(f) || OldestDelta(items) < |items| {
        OfferKeepsIntact(c, maxsize, f);
      } else {
        // The one discard that is not a delta: the queue is full and holds none to evict.
        IntactHasPrefixes(c, 0);
        IntactHasPrefixes(c, |items|);
        assert c.emitted + items[..0] == c.emitted && items[..|items|] == items;
        PrefixesGrow(c.offered, f, c.emitted);
        PrefixesGrow(c.offered, f, c.emitted + items);
        assert Lossy(next, maxsize);
      }
    } else {
      PrefixesGrow(c.offered, f, c.emitted);
      if c.reader.Waiting? {
        PrefixesGrow(c.offered, f, c.emitted + items);
        assert next.inbox.items == items;
      }
      assert Lossy(next, maxsize);
    }
  }

  lemma TakeKeepsInv(c: Channel, maxsize: nat, step: ChannelStep)
    requires ChannelInv(c, maxsize)
    requires step.CheckingFlag? || step.WakingUp?
    ensures ChannelInv(StepChannel(c, maxsize, step), maxsize)
  {
    var next := StepChannel(c, maxsize, step);
    if next.emitted != c.emitted {
      assert c.emitted + c.inbox.items == next.emitted + next.inbox.items;
      if !Intact(c) {
        var k :| 0 <= k <= |c.offered| && Thinned(c.offered[..k], c.emitted + c.inbox.items);
        var j := ThinnedPrefix(c.offered[..k], c.emitted + c.inbox.items, |next.emitted|);
        assert c.offered[..k][..j] == c.offered[..j];
        assert (c.emitted + c.inbox.items)[..|next.emitted|] == next.emitted;
        assert Lossy(next, maxsize);
      }
    }
  }

  /** Every step keeps the queue bounded and the reader's output a thinned prefix of what was offered. */
  lemma StepKeepsInv(c: Channel, maxsize: nat, step: ChannelStep)
    requires ChannelInv(c, maxsize)
    ensures ChannelInv(StepChannel(c, maxsize, step), maxsize)
  {
    match step {
      case Offering(f) => OfferKeepsInv(c, maxsize, f);
      case CheckingFlag => TakeKeepsInv(c, maxsize, step);
      case WakingUp => TakeKeepsInv(c, maxsize, step);
      case _ =>
    }
  }

  function RunChannel(maxsize: nat, steps: seq<ChannelStep>): Channel {
    if steps == [] then FRESH_CHANNEL
    else StepChannel(RunChannel(maxsize, steps[..|steps| - 1]), maxsize, steps[|steps| - 1])
  }

  lemma {:induction false} RunKeepsInv(maxsize: nat, steps: seq<ChannelStep>)
    ensures ChannelInv(RunChannel(maxsize, steps), maxsize)
  {
    if steps != [] {
      RunKeepsInv(maxsize, steps[..|steps| - 1]);
      StepKeepsInv(RunChannel(maxsize, steps[..|steps| - 1]), maxsize, steps[|steps| - 1]);
    }
  }

  lemma EmittedIsPrefix(c: Channel, maxsize: nat) returns (k: nat)
    requires ChannelInv(c, maxsize)
    ensures k <= |c.offered| && Thinned(c.offered[..k], c.emitted)
  {
    if Intact(c) {
      IntactHasPrefixes(c, 0);
      assert c.emitted + c.inbox.items[..0] == c.emitted;
    }
    k :| 0 <= k <= |c.offered| && Thinned(c.offered[..k], c.emitted);
  }

  /** Bounded queue safety, over every run of offers and reader steps: the queue never exceeds its
      maximum; before overflow only deltas are discarded; and what the reader emits, deltas aside,
      is always a prefix of what was offered. */
  lemma BoundedQueueSafety(maxsize: nat, steps: seq<ChannelStep>)
    ensures var c := RunChannel(maxsize, steps);
            && |c.inbox.items| <= maxsize
            && (!c.inbox.overflowed ==>
                  Filter(KeptTest(), c.offered) == Filter(KeptTest(), c.emitted + c.inbox.items))
            && Filter(KeptTest(), c.emitted) <= Filter(KeptTest(), c.offered)
  {
    var c := RunChannel(maxsize, steps);
    RunKeepsInv(maxsize, steps);
    if !c.inbox.overflowed {
      ThinnedKeepsTheRest(c.offered, c.emitted + c.inbox.items);
    }
    var k := EmittedIsPrefix(c, maxsize);
    ThinnedKeepsTheRest(c.offered[..k], c.emitted);
    assert c.offered == c.offered[..k] + c.offered[k..];
    FilterConcat(KeptTest(), c.offered[..k], c.offered[k..]);
  }

  /** What counts as lossy is the delta and nothing else: on a channel that has not overflowed, every frame
      that is not a delta was taken or is still queued, in order. */
  lemma OnlyDeltasAreLost(maxsize: nat, steps: seq<ChannelStep>)
    requires !RunChannel(maxsize, steps).inbox.overflowed
    ensures var c := RunChannel(maxsize, steps);
            Filter((f: Frame) => !f.event.Delta?, c.emitted + c.inbox.items)
            == Filter((f: Frame) => !f.event.Delta?, c.offered)
  {
    RunKeepsInv(maxsize, steps);
    var c := RunChannel(maxsize, steps);
    hide RunChannel;
    ThinnedKeepsTheRest(c.offered, c.emitted + c.inbox.items);
    SameKept(c.offered);
    SameKept(c.emitted + c.inbox.items);
  }

  lemma {:induction false} SameKept(frames: seq<Frame>)
    ensures Filter((f: Frame) => !f.event.Delta?, frames) == Filter(KeptTest(), frames)
  {
    if frames != [] {
      SameKept(frames[..|frames| - 1]);
    }
  }
}
