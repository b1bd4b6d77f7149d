/** The idle reaper (noeta/agent/host/reaper.py): from session rows to one verdict per container, and
    one sweep over the sandbox provider. */
module Reaper {
  import opened Collections
  import opened Sandbox

  datatype SessionActivity = SessionActivity(containerId: string, status: string, updatedAt: real, hasTaskStream: bool)

  datatype ContainerActivity = ContainerActivity(containerId: string, busy: bool, updatedAt: real)

  predicate IsBusy(status: string) {
    status in {"running", "waiting"}
  }

  /** A row that stands for a session with a container behind it. */
  predicate Counts(row: SessionActivity) {
    row.hasTaskStream && row.containerId != ""
  }

  predicate RowOf(rows: seq<SessionActivity>, row: SessionActivity, cid: string) {
    row in rows && Counts(row) && row.containerId == cid
  }

  /** One record is right: it is busy if any of its rows is, and as fresh as the freshest. */
  ghost predicate IsFoldOf(rows: seq<SessionActivity>, cid: string, busy: bool, updatedAt: real) {
    && (exists row :: RowOf(rows, row, cid) && row.updatedAt == updatedAt)
    && (forall row :: RowOf(rows, row, cid) ==> row.updatedAt <= updatedAt)
    && (busy <==> exists row :: RowOf(rows, row, cid) && IsBusy(row.status))
  }

  ghost predicate HasRow(rows: seq<SessionActivity>, cid: string) {
    exists row :: RowOf(rows, row, cid)
  }

  /** The two dictionaries after some rows. */
  ghost predicate Tables(rows: seq<SessionActivity>, busy: map<string, bool>, latest: map<string, real>,
                         order: seq<string>) {
    && busy.Keys == latest.Keys
    && (forall cid :: cid in latest <==> HasRow(rows, cid))
    && (forall cid :: cid in latest ==> IsFoldOf(rows, cid, busy[cid], latest[cid]))
    && Lists(order, latest.Keys)
  }

  /** Every key once. */
  ghost predicate Lists(order: seq<string>, keys: set<string>) {
    && (forall cid :: cid in order <==> cid in keys)
    && (forall i, j :: 0 <= i < j < |order| ==> order[i] != order[j])
  }

  lemma ListsSnoc(order: seq<string>, keys: set<string>, cid: string)
    requires Lists(order, keys) && cid !in keys
    ensures Lists(order + [cid], keys + {cid})
  {
  }

  /** The fold is complete, has one record per container, and each record is right. */
  ghost predicate IsFold(rows: seq<SessionActivity>, folded: seq<ContainerActivity>) {
    && (forall i, j :: 0 <= i < j < |folded| ==> folded[i].containerId != folded[j].containerId)
    && (forall i :: 0 <= i < |folded| ==> IsFoldOf(rows, folded[i].containerId, folded[i].busy, folded[i].updatedAt))
    && (forall cid :: HasRow(rows, cid) ==> exists i :: 0 <= i < |folded| && folded[i].containerId == cid)
  }

  lemma RowSnoc(rows: seq<SessionActivity>, last: SessionActivity, row: SessionActivity, cid: string)
    ensures RowOf(rows + [last], row, cid) <==>
        RowOf(rows, row, cid) || (row == last && Counts(last) && last.containerId == cid)
  {
  }

  lemma SkippedRow(rows: seq<SessionActivity>, last: SessionActivity, busy: map<string, bool>,
                   latest: map<string, real>, order: seq<string>)
    requires Tables(rows, busy, latest, order) && !Counts(last)
    ensures Tables(rows + [last], busy, latest, order)
  {
    forall row, cid ensures RowOf(rows + [last], row, cid) <==> RowOf(rows, row, cid) {
      RowSnoc(rows, last, row, cid);
    }
    hide RowOf;
    forall cid ensures HasRow(rows + [last], cid) <==> HasRow(rows, cid) {}
    forall cid | cid in latest ensures IsFoldOf(rows + [last], cid, busy[cid], latest[cid]) {
      assert IsFoldOf(rows, cid, busy[cid], latest[cid]);
    }
  }

  /** What one more row does to its container's record. */
  lemma FoldOne(rows: seq<SessionActivity>, last: SessionActivity, busy: bool, updatedAt: real)
    requires Counts(last)
    ensures IsFoldOf(rows, last.containerId, busy, updatedAt) ==>
              IsFoldOf(rows + [last], last.containerId, busy || IsBusy(last.status),
                       if updatedAt < last.updatedAt then last.updatedAt else updatedAt)
    ensures !HasRow(rows, last.containerId) ==>
              IsFoldOf(rows + [last], last.containerId, IsBusy(last.status), last.updatedAt)
  {
    var cid := last.containerId;
    forall row ensures RowOf(rows + [last], row, cid) <==> RowOf(rows, row, cid) || row == last {
      RowSnoc(rows, last, row, cid);
    }
    assert RowOf(rows + [last], last, cid);
    hide RowOf;
    hide IsBusy;
  }

  lemma OtherRow(rows: seq<SessionActivity>, last: SessionActivity, cid: string)
    requires cid != last.containerId
    ensures HasRow(rows + [last], cid) <==> HasRow(rows, cid)
    ensures forall busy, updatedAt :: IsFoldOf(rows + [last], cid, busy, updatedAt) <==>
        IsFoldOf(rows, cid, busy, updatedAt)
  {
    forall row ensures RowOf(rows + [last], row, cid) <==> RowOf(rows, row, cid) {
      RowSnoc(rows, last, row, cid);
    }
    hide RowOf;
  }

  method FoldActivity(rows: seq<SessionActivity>) returns (folded: seq<ContainerActivity>)
    ensures IsFold(rows, folded)
  {
    hide IsFoldOf;
    hide HasRow;
    var busy: map<string, bool>, latest: map<string, real>, order: seq<string> := map[], map[], [];
    NoRows();
    hide Tables;
    for i := 0 to |rows|
      invariant Tables(rows[..i], busy, latest, order)
    {
      var row := rows[i];
      assert rows[..i + 1] == rows[..i] + [row];
      if !row.hasTaskStream || row.containerId == "" {
        SkippedRow(rows[..i], row, busy, latest, order);
        continue;
      }
      var cid := row.containerId;
      CountedRow(rows[..i], row, busy, latest, order);
      if cid !in latest { order := order + [cid]; }
      var was := if cid in busy then busy[cid] else false;
      var at := if cid in latest then latest[cid] else row.updatedAt;
      busy := busy[cid := was || IsBusy(row.status)];
      latest := latest[cid := if at < row.updatedAt then row.updatedAt else at];
    }
    assert rows[..|rows|] == rows;
    KeysAgree(rows, busy, latest, order);
    folded := Records(order, busy, latest);
    RecordsAreFold(rows, busy, latest, order);
  }

  function Records(order: seq<string>, busy: map<string, bool>,
                   latest: map<string, real>): (records: seq<ContainerActivity>)
    requires forall cid :: cid in order ==> cid in busy && cid in latest
    ensures |records| == |order|
    ensures forall i :: 0 <= i < |order| ==> records[i] == ContainerActivity(order[i], busy[order[i]], latest[order[i]])
  {
    seq(|order|, i requires 0 <= i < |order| => ContainerActivity(order[i], busy[order[i]], latest[order[i]]))
  }

  lemma RecordsAreFold(rows: seq<SessionActivity>, busy: map<string, bool>, latest: map<string, real>,
                       order: seq<string>)
    requires Tables(rows, busy, latest, order)
    ensures IsFold(rows, Records(order, busy, latest))
  {
    hide IsFoldOf;
    hide HasRow;
    var folded := Records(order, busy, latest);
    forall cid | HasRow(rows, cid) ensures exists i :: 0 <= i < |folded| && folded[i].containerId == cid {
      assert cid in order;
      var i :| 0 <= i < |order| && order[i] == cid;
      assert folded[i].containerId == cid;
    }
  }

  lemma NoRows()
    ensures Tables([], map[], map[], [])
  {
    assert forall row, cid :: !RowOf([], row, cid);
  }

  lemma KeysAgree(rows: seq<SessionActivity>, busy: map<string, bool>, latest: map<string, real>, order: seq<string>)
    requires Tables(rows, busy, latest, order)
    ensures forall cid :: cid in order ==> cid in busy && cid in latest
  {
  }

  lemma CountedRow(rows: seq<SessionActivity>, last: SessionActivity, busy: map<string, bool>,
                   latest: map<string, real>, order: seq<string>)
    requires Tables(rows, busy, latest, order) && Counts(last)
    ensures var cid := last.containerId;
            var was := if cid in busy then busy[cid] else false;
            var at := if cid in latest then latest[cid] else last.updatedAt;
            Tables(rows + [last], busy[cid := was || IsBusy(last.status)],
                   latest[cid := if at < last.updatedAt then last.updatedAt else at],
                   if cid in latest then order else order + [cid])
  {
    var cid := last.containerId;
    var was, at := if cid in busy then busy[cid] else false, if cid in latest then latest[cid] else last.updatedAt;
    FoldOne(rows, last, was, at);
    if cid !in latest { assert !HasRow(rows, cid); }
    RowSnoc(rows, last, last, cid);
    assert HasRow(rows + [last], cid);
    forall other | other != cid
      ensures HasRow(rows + [last], other) <==> HasRow(rows, other)
      ensures other in latest ==> IsFoldOf(rows + [last], other, busy[other], latest[other])
    {
      OtherRow(rows, last, other);
    }
    hide IsFoldOf;
    hide HasRow;
    UpdateTables(rows, rows + [last], busy, latest, order, cid, was || IsBusy(last.status),
                 if at < last.updatedAt then last.updatedAt else at);
  }

  lemma UpdateTables(rows: seq<SessionActivity>, more: seq<SessionActivity>, busy: map<string, bool>,
                     latest: map<string, real>,
                     order: seq<string>, cid: string, isBusy: bool, updatedAt: real)
    requires Tables(rows, busy, latest, order)
    requires HasRow(more, cid) && IsFoldOf(more, cid, isBusy, updatedAt)
    requires forall other :: other != cid ==> (HasRow(more, other) <==> HasRow(rows, other))
    requires forall other :: other != cid && other in latest ==> IsFoldOf(more, other, busy[other], latest[other])
    ensures Tables(more, busy[cid := isBusy], latest[cid := updatedAt], if cid in latest then order else order + [cid])
  {
    hide IsFoldOf;
    hide HasRow;
    hide Lists;
    var keys := latest[cid := updatedAt].Keys;
    assert keys == latest.Keys + {cid};
    if cid in latest { assert keys == latest.Keys; } else { ListsSnoc(order, latest.Keys, cid); }
  }

  // ---------------------------------------------------------------------------
  // Verdicts
  // ---------------------------------------------------------------------------

  datatype Verdict = Keep | Stop | Remove

  /** The two thresholds in seconds; zero or less disables a level. */
  datatype Limits = Limits(stopAfter: real, removeAfter: real)

  ghost predicate AnyBusy(rows: seq<SessionActivity>, cid: string) {
    exists row :: RowOf(rows, row, cid) && IsBusy(row.status)
  }

  /** Every session of the container has been quiet for longer than that. */
  ghost predicate QuietFor(rows: seq<SessionActivity>, cid: string, now: real, seconds: real) {
    forall row :: RowOf(rows, row, cid) ==> now - row.updatedAt > seconds
  }

  /** What one sweep owes a container, said of the rows and of nothing else. */
  ghost function VerdictOn(rows: seq<SessionActivity>, cid: string, now: real, limits: Limits): Verdict {
    if !HasRow(rows, cid) || AnyBusy(rows, cid) then Keep
    else if limits.removeAfter > 0.0 && QuietFor(rows, cid, now, limits.removeAfter) then Remove
    else if limits.stopAfter > 0.0 && QuietFor(rows, cid, now, limits.stopAfter) then Stop
    else Keep
  }

  /** Every session of the container that has a task is neither running nor waiting and was last active
      more than so long ago; and there is one. */
  ghost predicate AllIdleFor(rows: seq<SessionActivity>, cid: string, now: real, seconds: real) {
    && cid != ""
    && (exists row :: row in rows && row.hasTaskStream && row.containerId == cid)
    && forall row :: row in rows && row.hasTaskStream && row.containerId == cid ==>
         row.status != "running" && row.status != "waiting" && now - row.updatedAt > seconds
  }

  /** Removing wins over stopping: past the removal threshold a container is removed whatever the other
      says, past the stopping threshold alone it is stopped, and a threshold of zero or less never acts. */
  lemma RemovingWins(rows: seq<SessionActivity>, cid: string, now: real, limits: Limits)
    ensures var remove := limits.removeAfter > 0.0 && AllIdleFor(rows, cid, now, limits.removeAfter);
            var stop := limits.stopAfter > 0.0 && AllIdleFor(rows, cid, now, limits.stopAfter);
            && (VerdictOn(rows, cid, now, limits) == Remove <==> remove)
            && (VerdictOn(rows, cid, now, limits) == Stop <==> stop && !remove)
            && (VerdictOn(rows, cid, now, limits) == Keep <==> !stop && !remove)
  {
    assert HasRow(rows, cid) <==>
           cid != "" && exists row :: row in rows && row.hasTaskStream && row.containerId == cid by {
      if row :| row in rows && row.hasTaskStream && row.containerId == cid && cid != "" {
        assert RowOf(rows, row, cid);
      }
    }
    IdleMeans(rows, cid, now, limits.removeAfter);
    IdleMeans(rows, cid, now, limits.stopAfter);
    hide HasRow;
    hide AllIdleFor;
    hide AnyBusy;
    hide QuietFor;
  }

  lemma IdleMeans(rows: seq<SessionActivity>, cid: string, now: real, seconds: real)
    ensures AllIdleFor(rows, cid, now, seconds)
       <==> HasRow(rows, cid) && !AnyBusy(rows, cid) && QuietFor(rows, cid, now, seconds)
  {
    if AllIdleFor(rows, cid, now, seconds) {
      var row :| row in rows && row.hasTaskStream && row.containerId == cid;
      assert RowOf(rows, row, cid);
    }
    if HasRow(rows, cid) && !AnyBusy(rows, cid) && QuietFor(rows, cid, now, seconds) {
      forall row | row in rows && row.hasTaskStream && row.containerId == cid && cid != ""
        ensures row.status != "running" && row.status != "waiting" && now - row.updatedAt > seconds
      {
        assert RowOf(rows, row, cid);
      }
    }
  }

  /** The verdict is a matter of which rows there are, not of their order or number. */
  lemma VerdictIgnoresOrder(a: seq<SessionActivity>, b: seq<SessionActivity>, cid: string, now: real, limits: Limits)
    requires forall row :: row in a <==> row in b
    ensures VerdictOn(a, cid, now, limits) == VerdictOn(b, cid, now, limits)
  {
    forall row ensures RowOf(a, row, cid) <==> RowOf(b, row, cid) {}
    hide RowOf;
    hide IsBusy;
    assert HasRow(a, cid) <==> HasRow(b, cid);
    assert AnyBusy(a, cid) <==> AnyBusy(b, cid);
    assert forall seconds :: QuietFor(a, cid, now, seconds) <==> QuietFor(b, cid, now, seconds);
  }

  /** The newest activity decides: it is past a threshold exactly when all of it is. */
  lemma NewestDecides(rows: seq<SessionActivity>, a: ContainerActivity, now: real, seconds: real)
    requires IsFoldOf(rows, a.containerId, a.busy, a.updatedAt)
    ensures HasRow(rows, a.containerId)
    ensures a.busy <==> AnyBusy(rows, a.containerId)
    ensures now - a.updatedAt > seconds <==> QuietFor(rows, a.containerId, now, seconds)
  {
    hide RowOf;
    hide IsBusy;
    var row :| RowOf(rows, row, a.containerId) && row.updatedAt == a.updatedAt;
  }

  function ContainerAt(docker: map<string, Container>, cid: string): Option<Container> {
    if cid in docker then Some(docker[cid]) else None
  }

  /** What carrying out a verdict leaves of a container. */
  function Reclaimed(c: Option<Container>, verdict: Verdict, works: bool): Option<Container> {
    if c.None? || !works || verdict == Keep then c
    else if verdict == Remove then None
    else Some(c.value.(running := false))
  }

  /** What a sweep leaves of a container, said of the rows: gone if it is idle past the removal threshold,
      stopped at its port if past the stopping threshold only, and as it was if neither or if the call fails. */
  lemma ReclaimedByRows(c: Container, rows: seq<SessionActivity>, cid: string, now: real, limits: Limits, works: bool)
    ensures var remove := limits.removeAfter > 0.0 && AllIdleFor(rows, cid, now, limits.removeAfter);
            var stop := limits.stopAfter > 0.0 && AllIdleFor(rows, cid, now, limits.stopAfter);
            Reclaimed(Some(c), VerdictOn(rows, cid, now, limits), works)
            == if !works then Some(c)
               else if remove then None
               else if stop then Some(Container(false, c.port))
               else Some(c)
    ensures Reclaimed(None, VerdictOn(rows, cid, now, limits), works) == None
  {
    RemovingWins(rows, cid, now, limits);
    hide VerdictOn;
    hide AllIdleFor;
  }

  /** Carry out one container's decision; a failing call is swallowed. */
  method Reclaim(provider: SandboxProvider, a: ContainerActivity, now: real, limits: Limits, raises: bool, works: bool,
                 ghost rows: seq<SessionActivity>)
    requires IsFoldOf(rows, a.containerId, a.busy, a.updatedAt)
    modifies provider
    ensures ContainerAt(provider.docker, a.containerId)
         == Reclaimed(old(ContainerAt(provider.docker, a.containerId)),
                      VerdictOn(rows, a.containerId, now, limits), works && !raises)
    ensures forall cid :: cid != a.containerId ==>
              ContainerAt(provider.docker, cid) == old(ContainerAt(provider.docker, cid))
    ensures old(Counted(provider.State())) ==> Counted(provider.State())
  {
    NewestDecides(rows, a, now, limits.removeAfter);
    NewestDecides(rows, a, now, limits.stopAfter);
    hide IsFoldOf;
    hide HasRow;
    hide AnyBusy;
    hide QuietFor;
    ghost var w := provider.State();
    if a.busy { return; }
    var idle := now - a.updatedAt;
    if limits.removeAfter > 0.0 && idle > limits.removeAfter {
      if Counted(w) { StepCounts(w, Op.ForceRelease(a.containerId, works)); }
      if !raises { provider.ForceRelease(a.containerId, works); }
    } else if limits.stopAfter > 0.0 && idle > limits.stopAfter {
      if Counted(w) { StepCounts(w, Op.StopIdle(a.containerId, works)); }
      if !raises { var _ := provider.StopIdle(a.containerId, works); }
    }
  }

  /** One sweep reclaims exactly the containers its verdicts name, each by itself: a call that raises
      or fails changes its own container's fate and no other's. */
  method Sweep(provider: SandboxProvider, rows: seq<SessionActivity>, now: real, limits: Limits,
               raises: string -> bool, works: string -> bool)
    modifies provider
    ensures forall cid ::
              ContainerAt(provider.docker, cid)
              == Reclaimed(old(ContainerAt(provider.docker, cid)), VerdictOn(rows, cid, now, limits),
                           works(cid) && !raises(cid))
    ensures old(Counted(provider.State())) ==> Counted(provider.State())
  {
    hide IsFoldOf;
    hide HasRow;
    hide AnyBusy;
    hide QuietFor;
    hide Counted;
    hide VerdictOn;
    hide Reclaimed;
    var folded := FoldActivity(rows);
    for i := 0 to |folded|
      invariant forall j :: 0 <= j < i ==>
                  ContainerAt(provider.docker, folded[j].containerId)
                  == Reclaimed(old(ContainerAt(provider.docker, folded[j].containerId)),
                               VerdictOn(rows, folded[j].containerId, now, limits),
                               works(folded[j].containerId) && !raises(folded[j].containerId))
      invariant forall cid :: (forall j :: 0 <= j < i ==> folded[j].containerId != cid) ==>
                  ContainerAt(provider.docker, cid) == old(ContainerAt(provider.docker, cid))
      invariant old(Counted(provider.State())) ==> Counted(provider.State())
    {
      var a := folded[i];
      Reclaim(provider, a, now, limits, raises(a.containerId), works(a.containerId), rows);
    }
    forall cid | forall j :: 0 <= j < |folded| ==> folded[j].containerId != cid
      ensures forall c, ok :: Reclaimed(c, VerdictOn(rows, cid, now, limits), ok) == c
    {
      Unlisted(rows, cid, now, limits);
    }
  }

  lemma Unlisted(rows: seq<SessionActivity>, cid: string, now: real, limits: Limits)
    requires !HasRow(rows, cid)
    ensures forall c, ok :: Reclaimed(c, VerdictOn(rows, cid, now, limits), ok) == c
  {
  }
}
