/** The local Docker sandbox provider (noeta/agent/host/sandbox_provider.py): who references a
    container, which host port it holds, and what each lifecycle call does to both.

    What the daemon, the readiness probe, the port picker and the resolver answer are parameters. */
module Sandbox {
  import opened Collections

  const PORT_PICK_ATTEMPTS := 10

  datatype Container = Container(running: bool, port: int)

  /** The provider's three dictionaries, and the containers under its prefix, stopped ones included. */
  datatype World = World(
    cidByRoot: map<string, string>,
    rootsByCid: map<string, set<string>>,
    handleByCid: map<string, int>,
    docker: map<string, Container>)

  /** A process that has just started remembers nothing; it finds whatever containers were left. */
  function Booted(found: map<string, Container>): World {
    World(map[], map[], map[], found)
  }

  const EMPTY_WORLD := Booted(map[])

  datatype ContainerState = Running | Stopped | Absent

  function StateOf(docker: map<string, Container>, cid: string): ContainerState {
    if cid !in docker then Absent else if docker[cid].running then Running else Stopped
  }

  /** A refused `docker run` creates nothing; one whose container cannot start leaves it created. */
  datatype RunOutcome = Started | LeftCreated | Refused

  /** What the outside answers during one call. */
  datatype Replies = Replies(
    portRead: bool,      // `docker port` was readable
    probed: bool,        // a running container answered the probe
    listed: bool,        // the containers could be listed
    picks: nat -> int,   // the ports the picker offers
    removed: bool,       // `docker rm -f` worked
    outcome: RunOutcome, // what `docker run` did
    ready: bool,         // the container became ready in time
    reaped: bool)        // a second `docker rm -f` worked

  /** The handle's port, or the error the call raises. */
  datatype Result = Ok(port: int) | Failed

  // ---------------------------------------------------------------------------
  // Docker
  // ---------------------------------------------------------------------------

  function Ports(docker: map<string, Container>): set<int> {
    set cid | cid in docker :: docker[cid].port
  }

  /** Another running container binds the port. */
  predicate Bound(docker: map<string, Container>, cid: string, port: int) {
    exists other :: other in docker && other != cid && docker[other].running && docker[other].port == port
  }

  /** Another container holds the port, running or not. */
  predicate Held(docker: map<string, Container>, cid: string, port: int) {
    exists other :: other in docker && other != cid && docker[other].port == port
  }

  function Removed(docker: map<string, Container>, cid: string, works: bool): map<string, Container> {
    if works then docker - {cid} else docker
  }

  /** `docker run`: a taken name refuses, a bound port leaves the container created. */
  function RunResult(docker: map<string, Container>, cid: string, port: int, outcome: RunOutcome): RunOutcome {
    if cid in docker then Refused
    else if outcome == Started && Bound(docker, cid, port) then LeftCreated
    else outcome
  }

  function AfterRun(docker: map<string, Container>, cid: string, port: int,
                    outcome: RunOutcome): map<string, Container> {
    match RunResult(docker, cid, port, outcome)
    case Started => docker[cid := Container(true, port)]
    case LeftCreated => docker[cid := Container(false, port)]
    case Refused => docker
  }

  /** Run a container and wait for it; one that never becomes ready is reaped. */
  function Provisioned(docker: map<string, Container>, cid: string, port: int, r: Replies): map<string, Container> {
    var ran := AfterRun(Removed(docker, cid, r.removed), cid, port, r.outcome);
    var started := RunResult(Removed(docker, cid, r.removed), cid, port, r.outcome) == Started;
    if IsProvisioned(docker, cid, port, r) || !started then ran
    else Removed(ran, cid, r.reaped)
  }

  predicate IsProvisioned(docker: map<string, Container>, cid: string, port: int, r: Replies) {
    RunResult(Removed(docker, cid, r.removed), cid, port, r.outcome) == Started && r.ready
  }

  /** The first offered port that no container holds. */
  function FirstFree(reserved: set<int>, picks: nat -> int, i: nat): (port: Option<int>)
    ensures port.Some? ==> port.value !in reserved
    ensures port.None? ==> forall k :: i <= k < PORT_PICK_ATTEMPTS ==> picks(k) in reserved
    decreases PORT_PICK_ATTEMPTS - i
  {
    if i >= PORT_PICK_ATTEMPTS then None
    else if picks(i) !in reserved then Some(picks(i))
    else FirstFree(reserved, picks, i + 1)
  }

  // ---------------------------------------------------------------------------
  // The calls
  // ---------------------------------------------------------------------------

  /** The container of a root: the resolver's answer, else one of its own. */
  function ContainerIdFor(root: string, resolved: Option<string>): string {
    if resolved.Some? && resolved.value != "" then resolved.value else root
  }

  function RootsOf(w: World, cid: string): set<string> {
    if cid in w.rootsByCid then w.rootsByCid[cid] else {}
  }

  function Referenced(w: World, root: string, cid: string): World {
    w.(cidByRoot := w.cidByRoot[root := cid], rootsByCid := w.rootsByCid[cid := RootsOf(w, cid) + {root}])
  }

  /** The handle a running container is reused through, if it answers. */
  function Reusable(w: World, cid: string, r: Replies): Option<int> {
    if StateOf(w.docker, cid) != Running || !r.probed then None
    else if cid in w.handleByCid then Some(w.handleByCid[cid])
    else if r.portRead then Some(w.docker[cid].port)
    else None
  }

  function Allocated(w: World, root: string, resolved: Option<string>, r: Replies): (World, Result) {
    var cid := ContainerIdFor(root, resolved);
    var w1 := Referenced(w, root, cid);
    var reused := Reusable(w, cid, r);
    if reused.Some? then (w1.(handleByCid := w1.handleByCid[cid := reused.value]), Ok(reused.value))
    else
      var port := FirstFree(if r.listed then Ports(w.docker) else {}, r.picks, 0);
      if port.None? then (w1, Failed)
      else
        var w2 := w1.(docker := Provisioned(w.docker, cid, port.value, r));
        if IsProvisioned(w.docker, cid, port.value, r)
        then (w2.(handleByCid := w2.handleByCid[cid := port.value]), Ok(port.value))
        else (w2, Failed)
  }

  function Forgotten(w: World, cid: string): World {
    w.(rootsByCid := w.rootsByCid - {cid}, handleByCid := w.handleByCid - {cid})
  }

  /** The container a release is about: the recorded one, else the resolver's answer. */
  function ReleasedCid(w: World, root: string, resolved: Option<string>): string {
    if root in w.cidByRoot then w.cidByRoot[root] else ContainerIdFor(root, resolved)
  }

  function Released(w: World, root: string, resolved: Option<string>, works: bool): World {
    var cid := ReleasedCid(w, root, resolved);
    var w1 := w.(cidByRoot := w.cidByRoot - {root});
    if RootsOf(w, cid) - {root} != {} then w1.(rootsByCid := w1.rootsByCid[cid := RootsOf(w, cid) - {root}])
    else Forgotten(w1, cid).(docker := Removed(w.docker, cid, works))
  }

  function ForceReleased(w: World, cid: string, works: bool): World {
    Forgotten(w.(cidByRoot := w.cidByRoot - RootsOf(w, cid)), cid).(docker := Removed(w.docker, cid, works))
  }

  function IdleStopped(w: World, cid: string, works: bool): (World, bool) {
    if StateOf(w.docker, cid) != Running then (w, false)
    else
      var w1 := w.(handleByCid := w.handleByCid - {cid});
      if works then (w1.(docker := w.docker[cid := w.docker[cid].(running := false)]), true) else (w1, false)
  }

  /** `docker start` needs the container's own port free. */
  function Restarted(docker: map<string, Container>, cid: string, works: bool, ready: bool, stops: bool)
      : (map<string, Container>, bool)
    requires cid in docker
  {
    if !works || Bound(docker, cid, docker[cid].port) then (docker, false)
    else (docker[cid := docker[cid].(running := ready || !stops)], ready)
  }

  datatype RefReplies = RefReplies(started: bool, stops: bool, workspace: bool, run: Replies)

  /** Reconnect by a durable ref, which names a container and the port its handle had. */
  function Attached(w: World, cid: string, refPort: int, r: RefReplies): (World, Result) {
    match StateOf(w.docker, cid)
    case Running => (w, Ok(refPort))
    case Stopped =>
      var (docker, ok) := Restarted(w.docker, cid, r.started, r.run.ready, r.stops);
      (w.(docker := docker), if ok then Ok(refPort) else Failed)
    case Absent =>
      if !r.workspace then (w, Failed)
      else (w.(docker := Provisioned(w.docker, cid, refPort, r.run)),
            if IsProvisioned(w.docker, cid, refPort, r.run) then Ok(refPort) else Failed)
  }

  // ---------------------------------------------------------------------------
  // The provider
  // ---------------------------------------------------------------------------

  class SandboxProvider {
    var cidByRoot: map<string, string>
    var rootsByCid: map<string, set<string>>
    var handleByCid: map<string, int>
    var docker: map<string, Container>

    function State(): World
      reads this
    {
      World(cidByRoot, rootsByCid, handleByCid, docker)
    }

    constructor (found: map<string, Container>)
      ensures State() == Booted(found)
    {
      cidByRoot, rootsByCid, handleByCid, docker := map[], map[], map[], found;
    }

    /** The loop looks at the offered port, and only then asks for the next. */
    method PickUnreservedPort(listed: bool, picks: nat -> int) returns (port: Option<int>)
      ensures port == FirstFree(if listed then Ports(docker) else {}, picks, 0)
    {
      var reserved := if listed then Ports(docker) else {};
      var offered := picks(0);
      for i := 0 to PORT_PICK_ATTEMPTS
        invariant offered == picks(i)
        invariant FirstFree(reserved, picks, i) == FirstFree(reserved, picks, 0)
      {
        if offered !in reserved { return Some(offered); }
        offered := picks(i + 1);
      }
      port := None;
    }

    method Rm(cid: string, works: bool)
      modifies this`docker
      ensures docker == Removed(old(docker), cid, works)
    {
      if works { docker := docker - {cid}; }
    }

    method DockerRun(cid: string, port: int, outcome: RunOutcome) returns (ok: bool)
      modifies this`docker
      ensures docker == AfterRun(old(docker), cid, port, outcome)
      ensures ok <==> RunResult(old(docker), cid, port, outcome) == Started
    {
      ghost var before := docker;
      match RunResult(docker, cid, port, outcome)
      case Started =>
        docker := docker[cid := Container(true, port)];
        ok := true;
      case LeftCreated =>
        docker := docker[cid := Container(false, port)];
        ok := false;
      case Refused =>
        ok := false;
    }

    /** Clear the name, run, and reap what never became ready. */
    method Provision(cid: string, port: int, r: Replies) returns (ok: bool)
      modifies this`docker
      ensures docker == Provisioned(old(docker), cid, port, r)
      ensures ok <==> IsProvisioned(old(docker), cid, port, r)
    {
      Rm(cid, r.removed);
      var started := DockerRun(cid, port, r.outcome);
      if !started { return false; }
      if !r.ready { Rm(cid, r.reaped); }
      ok := r.ready;
    }

    method Allocate(root: string, resolved: Option<string>, r: Replies) returns (result: Result)
      modifies this
      ensures (State(), result) == Allocated(old(State()), root, resolved, r)
    {
      hide Provisioned;
      hide IsProvisioned;
      hide FirstFree;
      hide Ports;
      hide ContainerIdFor;
      var cid := ContainerIdFor(root, resolved);
      cidByRoot := cidByRoot[root := cid];
      rootsByCid := rootsByCid[cid := (if cid in rootsByCid then rootsByCid[cid] else {}) + {root}];
      if StateOf(docker, cid) == Running {
        var handle := if cid in handleByCid then Some(handleByCid[cid])
                      else if r.portRead then Some(docker[cid].port) else None;
        if handle.Some? && r.probed {
          handleByCid := handleByCid[cid := handle.value];
          return Ok(handle.value);
        }
      }
      var port := PickUnreservedPort(r.listed, r.picks);
      if port.None? { return Failed; }
      var ok := Provision(cid, port.value, r);
      if !ok { return Failed; }
      handleByCid := handleByCid[cid := port.value];
      result := Ok(port.value);
    }

    method Release(root: string, resolved: Option<string>, works: bool)
      modifies this
      ensures State() == Released(old(State()), root, resolved, works)
    {
      var cid := if root in cidByRoot then cidByRoot[root] else ContainerIdFor(root, resolved);
      cidByRoot := cidByRoot - {root};
      if cid in rootsByCid {
        var roots := rootsByCid[cid] - {root};
        if roots != {} {
          rootsByCid := rootsByCid[cid := roots];
          return;
        }
      }
      rootsByCid := rootsByCid - {cid};
      handleByCid := handleByCid - {cid};
      Rm(cid, works);
    }

    method ForceRelease(cid: string, works: bool)
      modifies this
      ensures State() == ForceReleased(old(State()), cid, works)
    {
      var roots := if cid in rootsByCid then rootsByCid[cid] else {};
      rootsByCid := rootsByCid - {cid};
      cidByRoot := cidByRoot - roots;
      handleByCid := handleByCid - {cid};
      Rm(cid, works);
    }

    method StopIdle(cid: string, works: bool) returns (stopped: bool)
      modifies this
      ensures (State(), stopped) == IdleStopped(old(State()), cid, works)
    {
      if StateOf(docker, cid) != Running { return false; }
      handleByCid := handleByCid - {cid};
      if !works { return false; }
      docker := docker[cid := docker[cid].(running := false)];
      stopped := true;
    }

    method Restart(cid: string, works: bool, ready: bool, stops: bool) returns (ok: bool)
      requires cid in docker
      modifies this`docker
      ensures (docker, ok) == Restarted(old(docker), cid, works, ready, stops)
    {
      if !works || Bound(docker, cid, docker[cid].port) { return false; }
      ghost var before := docker;
      docker := docker[cid := docker[cid].(running := true)];
      if !ready && stops { docker := docker[cid := docker[cid].(running := false)]; }
      ok := ready;
      assert docker == before[cid := before[cid].(running := ready || !stops)];
    }

    method Attach(cid: string, refPort: int, r: RefReplies) returns (result: Result)
      modifies this
      ensures (State(), result) == Attached(old(State()), cid, refPort, r)
    {
      var ok := true;
      match StateOf(docker, cid) {
        case Running =>
        case Stopped =>
          ok := Restart(cid, r.started, r.run.ready, r.stops);
        case Absent =>
          if !r.workspace { return Failed; }
          ok := Provision(cid, refPort, r.run);
      }
      result := if ok then Ok(refPort) else Failed;
    }
  }

  // ---------------------------------------------------------------------------
  // Runs
  // ---------------------------------------------------------------------------

  datatype Op =
    | Allocate(root: string, resolved: Option<string>, r: Replies)
    | Release(root: string, resolved: Option<string>, works: bool)
    | ForceRelease(cid: string, works: bool)
    | StopIdle(cid: string, works: bool)
    | Attach(cid: string, refPort: int, refReplies: RefReplies)

  function Step(w: World, op: Op): World {
    match op
    case Allocate(root, resolved, r) => Allocated(w, root, resolved, r).0
    case Release(root, resolved, works) => Released(w, root, resolved, works)
    case ForceRelease(cid, works) => ForceReleased(w, cid, works)
    case StopIdle(cid, works) => IdleStopped(w, cid, works).0
    case Attach(cid, refPort, r) => Attached(w, cid, refPort, r).0
  }

  function Run(w: World, ops: seq<Op>): World {
    if ops == [] then w else Step(Run(w, ops[..|ops| - 1]), ops[|ops| - 1])
  }

  // ---------------------------------------------------------------------------
  // References
  // ---------------------------------------------------------------------------

  /** Every root recorded for a container is in that container's root set. */
  predicate Counted(w: World) {
    forall root :: root in w.cidByRoot ==> root in RootsOf(w, w.cidByRoot[root])
  }

  /** The reference an allocation adds, before anything that can fail. */
  lemma ReferencedCounts(w: World, root: string, cid: string)
    requires Counted(w)
    ensures Counted(Referenced(w, root, cid))
  {
  }

  lemma AllocateCounts(w: World, root: string, resolved: Option<string>, r: Replies)
    requires Counted(w)
    ensures Counted(Allocated(w, root, resolved, r).0)
  {
    hide Provisioned;
    hide IsProvisioned;
    hide FirstFree;
    hide Reusable;
    var cid := ContainerIdFor(root, resolved);
    var after := Allocated(w, root, resolved, r).0;
    ReferencedCounts(w, root, cid);
    assert after.cidByRoot == Referenced(w, root, cid).cidByRoot;
    assert after.rootsByCid == Referenced(w, root, cid).rootsByCid;
    hide Referenced;
  }

  lemma ReleaseCounts(w: World, root: string, resolved: Option<string>, works: bool)
    requires Counted(w)
    ensures Counted(Released(w, root, resolved, works))
  {
    hide Removed;
  }

  lemma ForceReleaseCounts(w: World, cid: string, works: bool)
    requires Counted(w)
    ensures Counted(ForceReleased(w, cid, works))
  {
    hide Removed;
  }

  lemma StepCounts(w: World, op: Op)
    requires Counted(w)
    ensures Counted(Step(w, op))
  {
    hide Allocated;
    hide Released;
    hide ForceReleased;
    hide Provisioned;
    hide IsProvisioned;
    hide Restarted;
    match op
    case Allocate(root, resolved, r) => AllocateCounts(w, root, resolved, r);
    case Release(root, resolved, works) => ReleaseCounts(w, root, resolved, works);
    case ForceRelease(cid, works) => ForceReleaseCounts(w, cid, works);
    case StopIdle(cid, works) => assert Step(w, op).cidByRoot == w.cidByRoot && Step(w, op).rootsByCid == w.rootsByCid;
    case Attach(_, _, _) => assert Step(w, op).cidByRoot == w.cidByRoot && Step(w, op).rootsByCid == w.rootsByCid;
  }

  lemma {:induction false} RunCounts(found: map<string, Container>, ops: seq<Op>)
    ensures Counted(Run(Booted(found), ops))
  {
    if ops != [] {
      RunCounts(found, ops[..|ops| - 1]);
      StepCounts(Run(Booted(found), ops[..|ops| - 1]), ops[|ops| - 1]);
    }
  }

  /** Refcount safety: after any run of a process, and whatever the resolver answers, a release leaves every other
      container alone, and removes its own only when no other recorded root maps to it; it tries to
      exactly when the root set holds nobody else. */
  lemma ReleaseSparesSharedContainers(found: map<string, Container>, ops: seq<Op>, root: string,
                                      resolved: Option<string>, works: bool)
    ensures var w := Run(Booted(found), ops);
            var cid, after := ReleasedCid(w, root, resolved), Released(w, root, resolved, works);
            && after.docker - {cid} == w.docker - {cid}
            && (cid in w.docker ==> (cid !in after.docker <==> works && RootsOf(w, cid) <= {root}))
            && (cid in w.docker && cid !in after.docker ==>
                  forall other :: other in w.cidByRoot && other != root ==> w.cidByRoot[other] != cid)
  {
    var w := Run(Booted(found), ops);
    RunCounts(found, ops);
    var cid := ReleasedCid(w, root, resolved);
    assert RootsOf(w, cid) - {root} == {} <==> RootsOf(w, cid) <= {root};
  }

  /** The counts err on one side: a root whose resolver answer moves to `b` still counts for `a`, so
      the release of the last root recorded for `a` keeps its container. */
  lemma MovedRootStillCounts(moved: string, last: string, a: string, b: string, r: Replies, works: bool)
    requires moved != last && a != b && a != "" && b != ""
    ensures var run := [Allocate(last, Some(a), r), Allocate(moved, Some(a), r), Allocate(moved, Some(b), r)];
            var before := Run(EMPTY_WORLD, run);
            && before.cidByRoot == map[last := a, moved := b]
            && Released(before, last, None, works).docker == before.docker
  {
    var first, second, third := Allocate(last, Some(a), r), Allocate(moved, Some(a), r), Allocate(moved, Some(b), r);
    RunOfThree(first, second, third);
    hide Run;
    hide Step;
    var w1 := Step(EMPTY_WORLD, first);
    var w2 := Step(w1, second);
    AllocateReferences(EMPTY_WORLD, first);
    AllocateReferences(w1, second);
    AllocateReferences(w2, third);
    var w3 := Step(w2, third);
    assert w3.cidByRoot == map[last := a, moved := b];
    assert moved in RootsOf(w3, a) && RootsOf(w3, a) - {last} != {};
  }

  lemma RunOfThree(first: Op, second: Op, third: Op)
    ensures Run(EMPTY_WORLD, [first, second, third]) == Step(Step(Step(EMPTY_WORLD, first), second), third)
  {
    hide Step;
    var one, two, three := [first], [first, second], [first, second, third];
    assert three[..2] == two && two[..1] == one && one[..0] == [];
    assert Run(EMPTY_WORLD, one) == Step(EMPTY_WORLD, first);
    assert Run(EMPTY_WORLD, two) == Step(Step(EMPTY_WORLD, first), second);
  }

  lemma AllocateReferences(w: World, op: Op)
    requires op.Allocate?
    ensures var w1, cid := Step(w, op), ContainerIdFor(op.root, op.resolved);
            && w1.cidByRoot == w.cidByRoot[op.root := cid]
            && w1.rootsByCid == w.rootsByCid[cid := RootsOf(w, cid) + {op.root}]
  {
    hide Provisioned;
    hide IsProvisioned;
    hide FirstFree;
    hide Reusable;
  }

  // ---------------------------------------------------------------------------
  // The same by the calls alone
  // ---------------------------------------------------------------------------

  predicate AllocatesUnder(op: Op, root: string, cid: string) {
    op.Allocate? && op.root == root && ContainerIdFor(root, op.resolved) == cid
  }

  /** The container the calls left recorded for a root. A forced release drops the records of the roots
      that still count for its container, wherever they are recorded. */
  function RecordedCid(ops: seq<Op>, root: string): Option<string>
    decreases |ops|, 0
  {
    if ops == [] then None
    else
      var front, op := ops[..|ops| - 1], ops[|ops| - 1];
      match op
      case Allocate(other, resolved, _) =>
        if other == root then Some(ContainerIdFor(root, resolved)) else RecordedCid(front, root)
      case Release(other, _, _) => if other == root then None else RecordedCid(front, root)
      case ForceRelease(cid, _) => if Counts(front, root, cid) then None else RecordedCid(front, root)
      case _ => RecordedCid(front, root)
  }

  /** The container a release of the root is about. */
  function ReleaseTarget(ops: seq<Op>, root: string, resolved: Option<string>): string
    decreases |ops|, 1
  {
    var recorded := RecordedCid(ops, root);
    if recorded.Some? then recorded.value else ContainerIdFor(root, resolved)
  }

  /** The root was allocated under this container, which was not released by force since, and it was not
      released while the release was about this container. */
  predicate Counts(ops: seq<Op>, root: string, cid: string)
    decreases |ops|, 0
  {
    ops != []
    && var front, op := ops[..|ops| - 1], ops[|ops| - 1];
       AllocatesUnder(op, root, cid)
       || (Counts(front, root, cid)
           && !(op.Release? && op.root == root && ReleaseTarget(front, root, op.resolved) == cid)
           && !(op.ForceRelease? && op.cid == cid))
  }

  /** The two dictionaries hold what the calls say. */
  ghost predicate SaysSo(w: World, ops: seq<Op>) {
    && (forall root :: RecordedCid(ops, root) == if root in w.cidByRoot then Some(w.cidByRoot[root]) else None)
    && (forall root, cid :: Counts(ops, root, cid) <==> root in RootsOf(w, cid))
  }

  lemma StepRoots(w: World, op: Op, root: string, cid: string)
    ensures root in RootsOf(Step(w, op), cid)
       <==> (AllocatesUnder(op, root, cid)
             || (root in RootsOf(w, cid)
                 && !(op.Release? && op.root == root && ReleasedCid(w, root, op.resolved) == cid)
                 && !(op.ForceRelease? && op.cid == cid)))
  {
    if op.Allocate? {
      AllocateReferences(w, op);
      hide Step;
    } else {
      hide Provisioned;
      hide IsProvisioned;
      hide Restarted;
      hide Removed;
      hide Allocated;
    }
  }

  lemma StepRecords(w: World, op: Op, root: string)
    ensures var after := Step(w, op).cidByRoot;
            match op
            case Allocate(other, resolved, _) =>
              after == w.cidByRoot[other := ContainerIdFor(other, resolved)]
            case Release(other, _, _) => after == w.cidByRoot - {other}
            case ForceRelease(cid, _) => after == w.cidByRoot - RootsOf(w, cid)
            case _ => after == w.cidByRoot
  {
    if op.Allocate? {
      AllocateReferences(w, op);
      hide Step;
    } else {
      hide Provisioned;
      hide IsProvisioned;
      hide Restarted;
      hide Removed;
      hide Allocated;
    }
  }

  lemma StepSaysSo(w: World, ops: seq<Op>, op: Op)
    requires SaysSo(w, ops)
    ensures SaysSo(Step(w, op), ops + [op])
  {
    var all := ops + [op];
    assert all[..|ops|] == ops && all[|ops|] == op;
    hide Step;
    forall root
      ensures var after := Step(w, op).cidByRoot;
              RecordedCid(all, root) == if root in after then Some(after[root]) else None
    {
      StepRecords(w, op, root);
    }
    hide RootsOf;
    forall root, cid ensures Counts(all, root, cid) <==> root in RootsOf(Step(w, op), cid) {
      StepRoots(w, op, root, cid);
    }
  }

  /** After any run a container's set holds exactly the roots that count for it by the calls, and a root is
      recorded for the container the calls say. */
  lemma {:induction false} HeldRoots(found: map<string, Container>, ops: seq<Op>)
    ensures SaysSo(Run(Booted(found), ops), ops)
  {
    if ops != [] {
      var front, op := ops[..|ops| - 1], ops[|ops| - 1];
      assert ops == front + [op];
      HeldRoots(found, front);
      StepSaysSo(Run(Booted(found), front), front, op);
    }
    hide Step;
  }

  /** Since its last allocation under this container the root was allocated under another one, or another
      one that it still counted for was released by force. */
  predicate Displaced(ops: seq<Op>, root: string, cid: string) {
    ops != []
    && var front, op := ops[..|ops| - 1], ops[|ops| - 1];
       !AllocatesUnder(op, root, cid)
       && ((op.Allocate? && op.root == root)
           || (op.ForceRelease? && op.cid != cid && Counts(front, root, op.cid))
           || Displaced(front, root, cid))
  }

  /** A root that counts for a container is recorded for it, unless it was displaced. */
  lemma {:induction false} StrayMeansDisplaced(ops: seq<Op>, root: string, cid: string)
    requires Counts(ops, root, cid)
    ensures RecordedCid(ops, root) != Some(cid) <==> Displaced(ops, root, cid)
  {
    var front, op := ops[..|ops| - 1], ops[|ops| - 1];
    if !AllocatesUnder(op, root, cid) {
      StrayMeansDisplaced(front, root, cid);
    }
  }

  /** The second way to be displaced: a root moves from `a` to `b`, and releasing `a` by force forgets that it
      is recorded for `b`, where it still counts. */
  lemma ForceReleaseForgetsMoved(root: string, a: string, b: string, r: Replies, works: bool)
    requires a != b && a != "" && b != ""
    ensures var ops := [Allocate(root, Some(a), r), Allocate(root, Some(b), r), ForceRelease(a, works)];
            var after := Run(EMPTY_WORLD, ops);
            after.cidByRoot == map[] && root in RootsOf(after, b)
  {
    var first, second, third := Allocate(root, Some(a), r), Allocate(root, Some(b), r), ForceRelease(a, works);
    RunOfThree(first, second, third);
    hide Run;
    var w1 := Step(EMPTY_WORLD, first);
    var w2 := Step(w1, second);
    AllocateReferences(EMPTY_WORLD, first);
    AllocateReferences(w1, second);
    StepRecords(w2, third, root);
    StepRoots(w2, third, root, b);
    hide Step;
    assert w2.cidByRoot == map[root := b];
  }

  predicate AnotherCounts(ops: seq<Op>, root: string, cid: string, other: string) {
    other != root && Counts(ops, other, cid)
  }

  predicate AnotherStrays(ops: seq<Op>, root: string, cid: string, other: string) {
    AnotherCounts(ops, root, cid, other) && Displaced(ops, other, cid)
  }

  predicate AnotherRecorded(ops: seq<Op>, root: string, cid: string, other: string) {
    other != root && RecordedCid(ops, other) == Some(cid)
  }

  /** A working release keeps its container exactly when another root counts for it; when none is
      recorded for it any more, exactly when one that counts for it was displaced. */
  lemma StraysKeepContainers(found: map<string, Container>, ops: seq<Op>, root: string, resolved: Option<string>)
    requires ReleaseTarget(ops, root, resolved) in Run(Booted(found), ops).docker
    ensures var cid := ReleaseTarget(ops, root, resolved);
            var kept := cid in Released(Run(Booted(found), ops), root, resolved, true).docker;
            && (kept <==> exists other :: AnotherCounts(ops, root, cid, other))
            && ((forall other :: !AnotherRecorded(ops, root, cid, other)) ==>
                  (kept <==> exists other :: AnotherStrays(ops, root, cid, other)))
  {
    var w, cid := Run(Booted(found), ops), ReleaseTarget(ops, root, resolved);
    HeldRoots(found, ops);
    TargetIsReleased(w, ops, root, resolved);
    ReleaseSparesSharedContainers(found, ops, root, resolved, true);
    hide *;
    OthersCount(w, ops, root, cid);
    forall other
      ensures AnotherStrays(ops, root, cid, other) ==> AnotherCounts(ops, root, cid, other)
      ensures AnotherCounts(ops, root, cid, other) && !AnotherRecorded(ops, root, cid, other) ==>
                AnotherStrays(ops, root, cid, other)
    {
      StrayOrRecorded(ops, root, cid, other);
    }
  }

  lemma StrayOrRecorded(ops: seq<Op>, root: string, cid: string, other: string)
    ensures AnotherStrays(ops, root, cid, other) ==> AnotherCounts(ops, root, cid, other)
    ensures AnotherCounts(ops, root, cid, other) && !AnotherRecorded(ops, root, cid, other) ==>
              AnotherStrays(ops, root, cid, other)
  {
    if Counts(ops, other, cid) { StrayMeansDisplaced(ops, other, cid); }
    hide Counts;
    hide Displaced;
    hide RecordedCid;
  }

  lemma TargetIsReleased(w: World, ops: seq<Op>, root: string, resolved: Option<string>)
    requires SaysSo(w, ops)
    ensures ReleasedCid(w, root, resolved) == ReleaseTarget(ops, root, resolved)
  {
    hide Counts;
    hide RecordedCid;
    assert RecordedCid(ops, root) == if root in w.cidByRoot then Some(w.cidByRoot[root]) else None;
  }

  lemma OthersCount(w: World, ops: seq<Op>, root: string, cid: string)
    requires SaysSo(w, ops)
    ensures RootsOf(w, cid) <= {root} <==> !exists other :: AnotherCounts(ops, root, cid, other)
  {
    hide RecordedCid;
    hide RootsOf;
    var roots := RootsOf(w, cid);
    assert forall other :: AnotherCounts(ops, root, cid, other) <==> other in roots && other != root;
    hide *;
    if !(roots <= {root}) {
      var other :| other in roots && other != root;
      assert AnotherCounts(ops, root, cid, other);
    }
  }

  /** The port picked is the first of ten offers that no listed container holds. */
  lemma {:induction false} FirstFreeIsFirst(reserved: set<int>, picks: nat -> int, from: nat, i: nat)
    requires from <= i < 10 && picks(i) !in reserved && forall k :: from <= k < i ==> picks(k) in reserved
    ensures FirstFree(reserved, picks, from) == Some(picks(i))
    decreases i - from
  {
    if from < i {
      FirstFreeIsFirst(reserved, picks, from + 1, i);
    }
  }

  lemma {:induction false} TenOffersOnly(reserved: set<int>, picks: nat -> int, from: nat)
    requires from <= 10 && forall k :: from <= k < 10 ==> picks(k) in reserved
    ensures FirstFree(reserved, picks, from) == None
    decreases 10 - from
  {
    if from < 10 {
      TenOffersOnly(reserved, picks, from + 1);
    }
  }

  /** An allocation that succeeds either reuses a running container that answered its probe, and leaves the
      containers alone, or leaves a new one running at the returned port that became ready in time; either
      way the port is the container's handle from then on. */
  lemma AllocatedIsLive(w: World, root: string, resolved: Option<string>, r: Replies)
    ensures var (after, result) := Allocated(w, root, resolved, r);
            var cid := ContainerIdFor(root, resolved);
            && (result.Ok? ==>
                  && cid in after.docker && after.docker[cid].running
                  && cid in after.handleByCid && after.handleByCid[cid] == result.port
                  && (if after.docker == w.docker && cid in w.docker && w.docker[cid].running && r.probed
                         && (cid in w.handleByCid || r.portRead)
                      then result.port == if cid in w.handleByCid then w.handleByCid[cid] else w.docker[cid].port
                      else r.ready && after.docker[cid] == Container(true, result.port)))
            && (!r.probed && result.Ok? ==> r.ready && after.docker[cid].port == result.port)
            && (result.Failed? ==> after.handleByCid == w.handleByCid)
            && forall other :: other != cid ==>
                 (other in after.docker <==> other in w.docker)
                 && (other in after.docker ==> after.docker[other] == w.docker[other])
  {
    hide FirstFree;
    hide Bound;
  }

  /** A running container has this port. */
  predicate Served(docker: map<string, Container>, port: int) {
    exists c :: c in docker && docker[c].running && docker[c].port == port
  }

  /** Attaching to a running container gives the ref's port and touches nothing; to a stopped one it starts
      that one; to an absent one it builds it at the ref's port, if the workspace is known. Success means the
      container runs, and a new one at that port. */
  lemma AttachedIsLive(w: World, cid: string, refPort: int, r: RefReplies)
    ensures var (after, result) := Attached(w, cid, refPort, r);
            && (result.Ok? ==> result.port == refPort && cid in after.docker && after.docker[cid].running)
            && (cid in w.docker && w.docker[cid].running ==> result.Ok? && after == w)
            && (result.Ok? && cid in w.docker && !w.docker[cid].running ==>
                  r.started && r.run.ready && after.docker == w.docker[cid := Container(true, w.docker[cid].port)])
            && (result.Ok? && cid !in w.docker ==>
                  r.workspace && r.run.ready && after.docker[cid] == Container(true, refPort))
            && (cid !in w.docker && !Served(w.docker, refPort) ==>
                  r.workspace && r.run.ready && r.run.outcome == Started ==> result.Ok?)
            && (cid in w.docker && !w.docker[cid].running && !Served(w.docker, w.docker[cid].port) ==>
                  r.started && r.run.ready ==> result.Ok?)
            && after == w.(docker := after.docker)
  {
  }

  /** A stop leaves the container, its port and its references, forgets its handle, and is reported exactly
      when a running container was stopped. */
  lemma StopKeepsEverything(w: World, cid: string, works: bool)
    ensures var (after, stopped) := IdleStopped(w, cid, works);
            && (stopped <==> cid in w.docker && w.docker[cid].running && works)
            && after.docker.Keys == w.docker.Keys
            && (forall c :: c in w.docker ==>
                  && after.docker[c].port == w.docker[c].port
                  && (after.docker[c].running <==> w.docker[c].running && !(c == cid && works)))
            && after.cidByRoot == w.cidByRoot && after.rootsByCid == w.rootsByCid
            && (stopped ==> cid !in after.handleByCid)
  {
  }

  // ---------------------------------------------------------------------------
  // Ports
  // ---------------------------------------------------------------------------

  /** Stopped containers included: a stopped one gets its port back when it starts. */
  predicate PortsDistinct(docker: map<string, Container>) {
    forall a, b :: a in docker && b in docker && a != b ==> docker[a].port != docker[b].port
  }

  /** The call leaves a container at this port behind. */
  predicate Creates(docker: map<string, Container>, cid: string, port: int, r: Replies) {
    var result := RunResult(Removed(docker, cid, r.removed), cid, port, r.outcome);
    result == LeftCreated || (result == Started && (r.ready || !r.reaped))
  }

  lemma ProvisionPorts(docker: map<string, Container>, cid: string, port: int, r: Replies)
    requires PortsDistinct(docker)
    ensures var after := Provisioned(docker, cid, port, r);
            PortsDistinct(after) <==> !(Creates(docker, cid, port, r) && Held(docker, cid, port))
  {
    var after := Provisioned(docker, cid, port, r);
    if Creates(docker, cid, port, r) {
      assert cid in after && after[cid].port == port;
      assert forall other :: other != cid ==>
               (other in after <==> other in docker) && (other in after ==> after[other] == docker[other]);
      hide Provisioned;
      hide Creates;
    } else {
      assert forall a :: a in after ==> a in docker && after[a] == docker[a];
    }
  }

  /** The step puts a container on a port that another container holds. */
  predicate Collides(w: World, op: Op) {
    match op
    case Allocate(root, resolved, r) =>
      var cid := ContainerIdFor(root, resolved);
      var port := FirstFree(if r.listed then Ports(w.docker) else {}, r.picks, 0);
      Reusable(w, cid, r).None? && port.Some? && Creates(w.docker, cid, port.value, r)
      && Held(w.docker, cid, port.value)
    case Attach(cid, refPort, r) =>
      StateOf(w.docker, cid) == Absent && r.workspace && Creates(w.docker, cid, refPort, r.run)
      && Held(w.docker, cid, refPort)
    case _ => false
  }

  lemma StepPorts(w: World, op: Op)
    requires PortsDistinct(w.docker)
    ensures PortsDistinct(Step(w, op).docker) <==> !Collides(w, op)
  {
    hide Provisioned;
    hide IsProvisioned;
    hide Creates;
    hide FirstFree;
    hide Held;
    match op
    case Allocate(root, resolved, r) =>
      var port := FirstFree(if r.listed then Ports(w.docker) else {}, r.picks, 0);
      if port.Some? { ProvisionPorts(w.docker, ContainerIdFor(root, resolved), port.value, r); }
      hide PortsDistinct;
    case Attach(cid, refPort, r) =>
      ProvisionPorts(w.docker, cid, refPort, r.run);
    case _ =>
  }

  /** A port offered past the listing is held by no container at all. */
  lemma ListedNeverCollides(w: World, op: Op)
    requires op.Allocate? && op.r.listed
    ensures !Collides(w, op)
  {
    hide Creates;
    var port := FirstFree(Ports(w.docker), op.r.picks, 0);
    if port.Some? {
      assert forall cid :: cid in w.docker ==> w.docker[cid].port in Ports(w.docker);
    }
  }

  /** Docker binds a port for one running container at a time. */
  predicate BindsOnce(docker: map<string, Container>) {
    forall a, b :: a in docker && b in docker && a != b && docker[a].running && docker[b].running ==>
      docker[a].port != docker[b].port
  }

  lemma RunBindsOnce(docker: map<string, Container>, cid: string, port: int, outcome: RunOutcome)
    requires BindsOnce(docker)
    ensures var after := AfterRun(docker, cid, port, outcome);
            && BindsOnce(after)
            && (cid in docker ==> after == docker)
            && (cid !in docker && outcome == Refused ==> after == docker)
            && (cid !in docker && outcome == LeftCreated ==> after == docker[cid := Container(false, port)])
            && (cid !in docker && outcome == Started ==>
                  after == docker[cid := Container(!Served(docker, port), port)])
  {
  }

  lemma ProvisionBindsOnce(docker: map<string, Container>, cid: string, port: int, r: Replies)
    requires BindsOnce(docker)
    ensures BindsOnce(Provisioned(docker, cid, port, r))
  {
    var cleared := Removed(docker, cid, r.removed);
    assert BindsOnce(cleared);
    RunBindsOnce(cleared, cid, port, r.outcome);
    hide AfterRun;
    hide RunResult;
    hide IsProvisioned;
  }

  lemma StepBindsOnce(w: World, op: Op)
    requires BindsOnce(w.docker)
    ensures BindsOnce(Step(w, op).docker)
  {
    hide Provisioned;
    hide IsProvisioned;
    hide FirstFree;
    match op
    case Allocate(root, resolved, r) =>
      var port := FirstFree(if r.listed then Ports(w.docker) else {}, r.picks, 0);
      if port.Some? { ProvisionBindsOnce(w.docker, ContainerIdFor(root, resolved), port.value, r); }
      hide BindsOnce;
    case Attach(cid, refPort, r) =>
      ProvisionBindsOnce(w.docker, cid, refPort, r.run);
    case _ =>
  }

  /** Whatever is listed, picked, refused or rebuilt, along every run no two running containers are bound to
      one port: what a rebuild endangers are the stopped ones. */
  lemma {:induction false} RunBindsEachPortOnce(found: map<string, Container>, ops: seq<Op>)
    requires BindsOnce(found)
    ensures BindsOnce(Run(Booted(found), ops).docker)
  {
    hide BindsOnce;
    hide Step;
    if ops != [] {
      RunBindsEachPortOnce(found, ops[..|ops| - 1]);
      StepBindsOnce(Run(Booted(found), ops[..|ops| - 1]), ops[|ops| - 1]);
    }
  }

  /** Every allocation could list the containers, and every rebuild found its ref's port free. */
  predicate Careful(w: World, op: Op) {
    && (op.Allocate? ==> op.r.listed)
    && (op.Attach? && StateOf(w.docker, op.cid) == Absent ==> !Held(w.docker, op.cid, op.refPort))
  }

  /** Port distinctness: along every such run no two containers hold one port, stopped ones included. */
  lemma {:induction false} RunKeepsPorts(found: map<string, Container>, ops: seq<Op>)
    requires PortsDistinct(found)
    requires forall i :: 0 <= i < |ops| ==> Careful(Run(Booted(found), ops[..i]), ops[i])
    ensures PortsDistinct(Run(Booted(found), ops).docker)
  {
    hide *;
    RunUnfolds(Booted(found), ops);
    if ops == [] {
      BootsWith(found);
    } else {
      var n := |ops| - 1;
      assert forall i :: 0 <= i < n ==> ops[..n][..i] == ops[..i];
      RunKeepsPorts(found, ops[..n]);
      var w := Run(Booted(found), ops[..n]);
      assert Careful(w, ops[n]);
      CarefulNeverCollides(w, ops[n]);
      StepPorts(w, ops[n]);
    }
  }

  lemma RunUnfolds(w: World, ops: seq<Op>)
    ensures Run(w, ops) == if ops == [] then w else Step(Run(w, ops[..|ops| - 1]), ops[|ops| - 1])
  {
  }

  lemma BootsWith(found: map<string, Container>)
    ensures Booted(found).docker == found
  {
  }

  lemma CarefulNeverCollides(w: World, op: Op)
    requires Careful(w, op)
    ensures !Collides(w, op)
  {
    if op.Allocate? { ListedNeverCollides(w, op); }
    hide Creates;
    hide Held;
  }

  /** So a restart never meets another sandbox container on its port: it fails only when docker does. */
  lemma RestartFindsItsPort(found: map<string, Container>, ops: seq<Op>, cid: string, ready: bool, stops: bool)
    requires PortsDistinct(found)
    requires forall i :: 0 <= i < |ops| ==> Careful(Run(Booted(found), ops[..i]), ops[i])
    requires StateOf(Run(Booted(found), ops).docker, cid) == Stopped
    ensures var docker := Run(Booted(found), ops).docker;
            var (after, ok) := Restarted(docker, cid, true, ready, stops);
            && ok == ready
            && after[cid] == Container(ready || !stops, docker[cid].port)
  {
    RunKeepsPorts(found, ops);
  }

  /** Everything outside works, and the picker offers one port. */
  function AllWorks(port: int): Replies {
    Replies(true, true, true, i => port, true, Started, true, true)
  }

  lemma AllocatesAlone(w: World, cid: string, port: int)
    requires w.docker == map[] && cid != ""
    ensures Step(w, Allocate(cid, None, AllWorks(port))).docker == map[cid := Container(true, port)]
  {
    assert Ports(w.docker) == {};
    assert w.docker - {cid} == w.docker;
  }

  lemma RebuildsBeside(w: World, a: string, b: string, port: int)
    requires w.docker == map[b := Container(false, port)] && a != b
    ensures Step(w, Attach(a, port, RefReplies(true, true, true, AllWorks(port)))).docker
         == map[a := Container(true, port), b := Container(false, port)]
  {
    assert w.docker - {a} == w.docker;
  }

  lemma RunSnoc(ops: seq<Op>, op: Op)
    ensures Run(EMPTY_WORLD, ops + [op]) == Step(Run(EMPTY_WORLD, ops), op)
  {
    assert (ops + [op])[..|ops|] == ops;
  }

  lemma ReleasesAlone(w: World, cid: string, port: int)
    requires w.docker == map[cid := Container(true, port)]
    ensures Step(w, ForceRelease(cid, true)).docker == map[]
    ensures Step(w, StopIdle(cid, true)).docker == map[cid := Container(false, port)]
  {
  }

  /** Where the rebuild does not look: a container removed by the reaper, its port given to a second
      one, and that one stopped; rebuilding the first from its ref strands the second. */
  lemma RebuildStrandsAnother(a: string, b: string, port: int, stops: bool)
    requires a != "" && b != "" && a != b
    ensures var r := AllWorks(port);
            var ops := [Allocate(a, None, r)] + [ForceRelease(a, true)] + [Allocate(b, None, r)] + [StopIdle(b, true)]
                       + [Attach(a, port, RefReplies(true, true, true, r))];
            var docker := Run(EMPTY_WORLD, ops).docker;
            && docker == map[a := Container(true, port), b := Container(false, port)]
            && Restarted(docker, b, true, true, stops) == (docker, false)
  {
    var r := AllWorks(port);
    var op1, op2, op3, op4 := Allocate(a, None, r), ForceRelease(a, true), Allocate(b, None, r), StopIdle(b, true);
    var op5 := Attach(a, port, RefReplies(true, true, true, r));
    var w1 := Step(EMPTY_WORLD, op1);
    var w2 := Step(w1, op2);
    var w3 := Step(w2, op3);
    var w4 := Step(w3, op4);
    RunSnoc([op1], op2);
    RunSnoc([op1] + [op2], op3);
    RunSnoc([op1] + [op2] + [op3], op4);
    RunSnoc([op1] + [op2] + [op3] + [op4], op5);
    RunSnoc([], op1);
    assert [] + [op1] == [op1];
    hide Step;
    AllocatesAlone(EMPTY_WORLD, a, port);
    ReleasesAlone(w1, a, port);
    AllocatesAlone(w2, b, port);
    ReleasesAlone(w3, b, port);
    RebuildsBeside(w4, a, b, port);
    var docker := Step(w4, op5).docker;
    assert docker[a].running && docker[a].port == port;
  }
}
