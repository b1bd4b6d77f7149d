/** The preview token registry (noeta/agent/host/preview_gateway.py): a bounded, evicting map from
    tokens to mounted containers and its inverse from sessions to tokens. */
module Preview {
  import opened Collections

  const MOUNT_LIMIT := 64

  datatype Mount = Mount(sessionId: string, baseUrl: string, auth: Option<string>, roots: set<string>)

  /** `order` is the insertion order of the tokens of `mounts`. */
  datatype Registry = Registry(order: seq<string>, mounts: map<string, Mount>, tokenBySession: map<string, string>)

  const EMPTY_REGISTRY := Registry([], map[], map[])

  function WithoutSlashes(url: string): string {
    if url != "" && url[|url| - 1] == '/' then WithoutSlashes(url[..|url| - 1]) else url
  }

  function Lookup(g: Registry, token: string): Option<Mount> {
    if token in g.mounts then Some(g.mounts[token]) else None
  }

  function TokenForSession(g: Registry, session: string): Option<string> {
    if session in g.tokenBySession then Some(g.tokenBySession[session]) else None
  }

  function NotToken(token: string): string -> bool {
    (t: string) => t != token
  }

  function Dropped(g: Registry, token: string): Registry {
    if token !in g.mounts then g
    else
      var session := g.mounts[token].sessionId;
      Registry(
        Filter(NotToken(token), g.order),
        g.mounts - {token},
        if TokenForSession(g, session) == Some(token) then g.tokenBySession - {session} else g.tokenBySession)
  }

  /** The mount a session already has. */
  function MountOf(g: Registry, session: string): Option<Mount> {
    var token := TokenForSession(g, session);
    if token.Some? && token.value != "" then Lookup(g, token.value) else None
  }

  function RootSet(root: Option<string>): set<string> {
    if root.Some? && root.value != "" then {root.value} else {}
  }

  /** A later mount of the same address: same token, one more root. */
  function Rejoined(g: Registry, session: string, auth: Option<string>, root: Option<string>): Registry
    requires MountOf(g, session).Some?
  {
    var token, mount := g.tokenBySession[session], MountOf(g, session).value;
    g.(mounts := g.mounts[token := mount.(auth := if auth.Some? then auth else mount.auth,
                                           roots := mount.roots + RootSet(root))])
  }

  /** Drop the oldest mounts until the limit holds. */
  function Evicted(g: Registry): Registry
    decreases |g.mounts|
  {
    if |g.mounts| > MOUNT_LIMIT && g.order != [] && g.order[0] in g.mounts then
      DropShrinks(g, g.order[0]);
      Evicted(Dropped(g, g.order[0]))
    else g
  }

  lemma DropShrinks(g: Registry, token: string)
    requires token in g.mounts
    ensures |Dropped(g, token).mounts| < |g.mounts|
  {
    assert g.mounts.Keys == (g.mounts - {token}).Keys + {token};
  }

  /** A mount under a fresh token, which dies with the session's old one. */
  function Minted(g: Registry, session: string, url: string, auth: Option<string>, root: Option<string>, offer: string)
      : Registry
  {
    var g1 := if MountOf(g, session).Some? then Dropped(g, g.tokenBySession[session]) else g;
    Registry(if offer in g1.mounts then g1.order else g1.order + [offer],
             g1.mounts[offer := Mount(session, url, auth, RootSet(root))],
             g1.tokenBySession[session := offer])
  }

  function Mounted(g: Registry, session: string, url: string, auth: Option<string>, root: Option<string>, offer: string)
      : (Registry, string)
  {
    var base := WithoutSlashes(url);
    var mount := MountOf(g, session);
    if mount.Some? && mount.value.baseUrl == base then (Rejoined(g, session, auth, root), g.tokenBySession[session])
    else (Evicted(Minted(g, session, base, auth, root, offer)), offer)
  }

  function HolderAmong(g: Registry, tokens: seq<string>, root: string): (token: Option<string>)
    ensures token.Some? ==> token.value in tokens && token.value in g.mounts && root in g.mounts[token.value].roots
  {
    if tokens == [] then None
    else if tokens[0] in g.mounts && root in g.mounts[tokens[0]].roots then Some(tokens[0])
    else HolderAmong(g, tokens[1..], root)
  }

  /** The first mount that holds the root, else the session's. */
  function TokenFor(g: Registry, root: string, session: Option<string>): Option<string> {
    var holder := HolderAmong(g, g.order, root);
    if holder.Some? then holder
    else if session.None? then None
    else TokenForSession(g, session.value)
  }

  function RootReleased(g: Registry, root: string, session: Option<string>): Registry {
    var token := TokenFor(g, root, session);
    if token.None? || token.value !in g.mounts then g
    else
      var mount := g.mounts[token.value].(roots := g.mounts[token.value].roots - {root});
      var g1 := g.(mounts := g.mounts[token.value := mount]);
      if mount.roots != {} then g1 else Dropped(g1, token.value)
  }

  function Unmounted(g: Registry, session: string): Registry {
    var token := TokenForSession(g, session);
    if token.Some? then Dropped(g, token.value) else g
  }

  // ---------------------------------------------------------------------------
  // The invariant
  // ---------------------------------------------------------------------------

  predicate NoDuplicates(xs: seq<string>) {
    forall i, j :: 0 <= i < j < |xs| ==> xs[i] != xs[j]
  }

  /** The order lists the tokens once each. */
  ghost predicate Listed(g: Registry) {
    NoDuplicates(g.order) && forall t :: t in g.order <==> t in g.mounts
  }

  ghost predicate Paired(mounts: map<string, Mount>, tokens: map<string, string>) {
    && (forall t :: t in mounts ==> mounts[t].sessionId in tokens && tokens[mounts[t].sessionId] == t && t != "")
    && (forall s :: s in tokens ==> tokens[s] in mounts && mounts[tokens[s]].sessionId == s)
  }

  /** The two maps are inverse to each other, and the order lists the tokens once each. */
  ghost predicate Inverse(g: Registry) {
    Listed(g) && Paired(g.mounts, g.tokenBySession)
  }

  predicate WithinLimit(g: Registry) {
    |g.mounts| <= MOUNT_LIMIT
  }

  lemma {:induction false} FilterKeepsDistinct(token: string, xs: seq<string>)
    requires NoDuplicates(xs)
    ensures NoDuplicates(Filter(NotToken(token), xs))
  {
    if xs != [] {
      FilterKeepsDistinct(token, xs[..|xs| - 1]);
    }
  }

  lemma DropKeepsListed(g: Registry, token: string)
    requires Listed(g)
    ensures Listed(Dropped(g, token))
  {
    if token in g.mounts {
      FilterKeepsDistinct(token, g.order);
      hide NoDuplicates;
      hide TokenForSession;
    }
  }

  lemma DropKeepsPaired(mounts: map<string, Mount>, tokens: map<string, string>, token: string)
    requires Paired(mounts, tokens) && token in mounts
    ensures Paired(mounts - {token}, tokens - {mounts[token].sessionId})
  {
  }

  lemma DropKeepsInverse(g: Registry, token: string)
    requires Inverse(g)
    ensures Inverse(Dropped(g, token))
  {
    hide Listed;
    DropKeepsListed(g, token);
    if token in g.mounts {
      DropKeepsPaired(g.mounts, g.tokenBySession, token);
      hide Filter;
    }
  }

  lemma {:induction false} EvictKeepsInverse(g: Registry)
    requires Inverse(g)
    ensures Inverse(Evicted(g)) && WithinLimit(Evicted(g))
    decreases |g.mounts|
  {
    if |g.mounts| > MOUNT_LIMIT {
      NonEmptyOrder(g);
      DropShrinks(g, g.order[0]);
      DropKeepsInverse(g, g.order[0]);
      EvictKeepsInverse(Dropped(g, g.order[0]));
    }
  }

  lemma NonEmptyOrder(g: Registry)
    requires Inverse(g) && |g.mounts| > 0
    ensures g.order != [] && g.order[0] in g.mounts
  {
    var t :| t in g.mounts;
    assert t in g.order;
  }

  lemma MountOfIsSession(g: Registry, session: string)
    requires Inverse(g)
    ensures MountOf(g, session).Some? <==> session in g.tokenBySession
    ensures MountOf(g, session).Some? ==>
              g.tokenBySession[session] in g.mounts && MountOf(g, session).value == g.mounts[g.tokenBySession[session]]
              && MountOf(g, session).value.sessionId == session
  {
  }

  lemma AddKeepsInverse(g: Registry, token: string, mount: Mount)
    requires Inverse(g) && token !in g.mounts && token != "" && mount.sessionId !in g.tokenBySession
    ensures Inverse(Registry(g.order + [token], g.mounts[token := mount], g.tokenBySession[mount.sessionId := token]))
  {
  }

  lemma MintKeepsInverse(g: Registry, session: string, url: string, auth: Option<string>, root: Option<string>,
                         offer: string)
    requires Inverse(g) && offer !in g.mounts && offer != ""
    ensures Inverse(Minted(g, session, url, auth, root, offer))
  {
    MountOfIsSession(g, session);
    hide MountOf;
    var g1 := if MountOf(g, session).Some? then Dropped(g, g.tokenBySession[session]) else g;
    if MountOf(g, session).Some? { DropKeepsInverse(g, g.tokenBySession[session]); }
    assert session !in g1.tokenBySession && offer !in g1.mounts;
    hide Dropped;
    hide Inverse;
    AddKeepsInverse(g1, offer, Mount(session, url, auth, RootSet(root)));
  }

  /** Changing a mount without changing its session. */
  lemma UpdateKeepsInverse(g: Registry, token: string, mount: Mount)
    requires Inverse(g) && token in g.mounts && mount.sessionId == g.mounts[token].sessionId
    ensures Inverse(g.(mounts := g.mounts[token := mount]))
    ensures g.mounts[token := mount].Keys == g.mounts.Keys
  {
  }

  lemma RejoinKeepsInverse(g: Registry, session: string, auth: Option<string>, root: Option<string>)
    requires Inverse(g) && MountOf(g, session).Some?
    ensures Inverse(Rejoined(g, session, auth, root))
    ensures Rejoined(g, session, auth, root).mounts.Keys == g.mounts.Keys
  {
    MountOfIsSession(g, session);
    hide MountOf;
    hide Inverse;
    var mount := MountOf(g, session).value;
    UpdateKeepsInverse(g, g.tokenBySession[session],
                       mount.(auth := if auth.Some? then auth else mount.auth, roots := mount.roots + RootSet(root)));
  }

  lemma ReleaseKeepsInverse(g: Registry, root: string, session: Option<string>)
    requires Inverse(g)
    ensures Inverse(RootReleased(g, root, session))
  {
    var token := TokenFor(g, root, session);
    hide TokenFor;
    hide Dropped;
    hide Inverse;
    if token.Some? && token.value in g.mounts {
      var mount := g.mounts[token.value].(roots := g.mounts[token.value].roots - {root});
      UpdateKeepsInverse(g, token.value, mount);
      DropKeepsInverse(g.(mounts := g.mounts[token.value := mount]), token.value);
    }
  }

  // ---------------------------------------------------------------------------
  // The gateway
  // ---------------------------------------------------------------------------

  class PreviewGateway {
    var order: seq<string>
    var mounts: map<string, Mount>
    var tokenBySession: map<string, string>

    function State(): Registry
      reads this
    {
      Registry(order, mounts, tokenBySession)
    }

    constructor ()
      ensures State() == EMPTY_REGISTRY
    {
      order, mounts, tokenBySession := [], map[], map[];
    }

    method Drop(token: string)
      modifies this
      ensures State() == Dropped(old(State()), token)
    {
      if token !in mounts { return; }
      var session := mounts[token].sessionId;
      mounts := mounts - {token};
      order := Filter(NotToken(token), order);
      if session in tokenBySession && tokenBySession[session] == token {
        tokenBySession := tokenBySession - {session};
      }
    }

    /** Publish a container under the session's token; `offer` is the token a new mount gets. */
    method MountContainer(session: string, url: string, auth: Option<string>, root: Option<string>, offer: string)
        returns (token: string)
      requires Inverse(State()) && offer !in mounts && offer != ""
      modifies this
      ensures (State(), token) == Mounted(old(State()), session, url, auth, root, offer)
    {
      hide Inverse;
      hide Dropped;
      hide WithoutSlashes;
      ghost var g := State();
      var base := WithoutSlashes(url);
      if session in tokenBySession && tokenBySession[session] != "" && tokenBySession[session] in mounts {
        token := tokenBySession[session];
        var mount := mounts[token];
        if mount.baseUrl == base {
          mounts := mounts[token := mount.(auth := if auth.Some? then auth else mount.auth,
                                           roots := mount.roots + RootSet(root))];
          return;
        }
        Drop(token);
      }
      MintKeepsInverse(g, session, base, auth, root, offer);
      token := offer;
      if token !in mounts { order := order + [token]; }
      mounts := mounts[token := Mount(session, base, auth, RootSet(root))];
      tokenBySession := tokenBySession[session := token];
      assert State() == Minted(g, session, base, auth, root, offer);
      EvictOldest();
    }

    method EvictOldest()
      requires Inverse(State())
      modifies this
      ensures State() == Evicted(old(State()))
    {
      hide Inverse;
      hide Dropped;
      while |mounts| > MOUNT_LIMIT
        invariant Inverse(State())
        invariant Evicted(State()) == Evicted(old(State()))
        decreases |mounts|
      {
        NonEmptyOrder(State());
        DropKeepsInverse(State(), order[0]);
        DropShrinks(State(), order[0]);
        Drop(order[0]);
      }
    }

    method FindToken(root: string, session: Option<string>) returns (token: Option<string>)
      requires Inverse(State())
      ensures token == TokenFor(State(), root, session)
    {
      assert order[0..] == order;
      for i := 0 to |order|
        invariant HolderAmong(State(), order, root) == HolderAmong(State(), order[i..], root)
      {
        assert order[i..][1..] == order[i + 1..];
        assert order[i] in order;
        if root in mounts[order[i]].roots { return Some(order[i]); }
      }
      if session.None? { return None; }
      token := if session.value in tokenBySession then Some(tokenBySession[session.value]) else None;
    }

    method ReleaseRoot(root: string, session: Option<string>)
      requires Inverse(State())
      modifies this
      ensures State() == RootReleased(old(State()), root, session)
    {
      var found := FindToken(root, session);
      if found.None? { return; }
      var token := found.value;
      assert token in mounts;
      hide Inverse;
      hide TokenFor;
      hide Dropped;
      mounts := mounts[token := mounts[token].(roots := mounts[token].roots - {root})];
      if mounts[token].roots != {} { return; }
      Drop(token);
    }

    method UnmountSession(session: string)
      modifies this
      ensures State() == Unmounted(old(State()), session)
    {
      if session in tokenBySession { Drop(tokenBySession[session]); }
    }
  }

  // ---------------------------------------------------------------------------
  // Runs
  // ---------------------------------------------------------------------------

  datatype Op =
    | Publish(session: string, url: string, auth: Option<string>, root: Option<string>, offer: string)
    | ReleaseRoot(releasedRoot: string, ofSession: Option<string>)
    | UnmountSession(unmounted: string)

  function Step(g: Registry, op: Op): Registry {
    match op
    case Publish(session, url, auth, root, offer) => Mounted(g, session, url, auth, root, offer).0
    case ReleaseRoot(root, session) => RootReleased(g, root, session)
    case UnmountSession(session) => Unmounted(g, session)
  }

  function Run(ops: seq<Op>): Registry {
    if ops == [] then EMPTY_REGISTRY else Step(Run(ops[..|ops| - 1]), ops[|ops| - 1])
  }

  /** Random tokens: never empty, never offered twice. */
  ghost predicate FreshOffers(ops: seq<Op>) {
    forall i :: 0 <= i < |ops| && ops[i].Publish? ==>
      ops[i].offer != "" && forall j :: 0 <= j < i && ops[j].Publish? ==> ops[j].offer != ops[i].offer
  }

  ghost predicate WasOffered(ops: seq<Op>, token: string) {
    exists i :: 0 <= i < |ops| && ops[i].Publish? && ops[i].offer == token
  }

  predicate SameAddress(a: Mount, b: Mount) {
    a.sessionId == b.sessionId && a.baseUrl == b.baseUrl
  }

  /** Every token of `after` is one of `before` at the same address, or the offered one. */
  ghost predicate OnlyAdds(before: Registry, after: Registry, offer: Option<string>) {
    forall t :: t in after.mounts ==>
      Some(t) == offer || (t in before.mounts && SameAddress(before.mounts[t], after.mounts[t]))
  }

  lemma {:induction false} EvictOnlyDrops(g: Registry)
    ensures OnlyAdds(g, Evicted(g), None)
    ensures forall t :: t in Evicted(g).mounts ==> Evicted(g).mounts[t] == g.mounts[t]
    decreases |g.mounts|
  {
    if |g.mounts| > MOUNT_LIMIT && g.order != [] && g.order[0] in g.mounts {
      DropShrinks(g, g.order[0]);
      EvictOnlyDrops(Dropped(g, g.order[0]));
    }
  }

  lemma MintOnlyAdds(g: Registry, session: string, url: string, auth: Option<string>, root: Option<string>,
                     offer: string)
    ensures OnlyAdds(g, Minted(g, session, url, auth, root, offer), Some(offer))
  {
  }

  lemma DropOnlyAdds(g: Registry, token: string)
    ensures OnlyAdds(g, Dropped(g, token), None)
  {
  }

  lemma ReleaseOnlyAdds(g: Registry, root: string, session: Option<string>)
    ensures OnlyAdds(g, RootReleased(g, root, session), None)
  {
    hide TokenFor;
  }

  lemma RejoinOnlyAdds(g: Registry, session: string, auth: Option<string>, root: Option<string>)
    requires Inverse(g) && MountOf(g, session).Some?
    ensures OnlyAdds(g, Rejoined(g, session, auth, root), None)
  {
    MountOfIsSession(g, session);
    hide MountOf;
    hide Inverse;
  }

  lemma StepOnlyAdds(g: Registry, op: Op)
    requires Inverse(g)
    ensures OnlyAdds(g, Step(g, op), if op.Publish? then Some(op.offer) else None)
  {
    hide Inverse;
    hide WithoutSlashes;
    hide MountOf;
    hide Rejoined;
    hide Minted;
    hide Evicted;
    hide RootReleased;
    hide Dropped;
    match op
    case Publish(session, url, auth, root, offer) =>
      var base := WithoutSlashes(url);
      if MountOf(g, session).Some? { RejoinOnlyAdds(g, session, auth, root); }
      MintOnlyAdds(g, session, base, auth, root, offer);
      EvictOnlyDrops(Minted(g, session, base, auth, root, offer));
    case ReleaseRoot(root, session) => ReleaseOnlyAdds(g, root, session);
    case UnmountSession(session) =>
      if TokenForSession(g, session).Some? { DropOnlyAdds(g, TokenForSession(g, session).value); }
  }

  lemma PublishKeepsRegistry(g: Registry, session: string, url: string, auth: Option<string>, root: Option<string>,
                             offer: string)
    requires Inverse(g) && WithinLimit(g) && offer !in g.mounts && offer != ""
    ensures var after := Mounted(g, session, url, auth, root, offer).0; Inverse(after) && WithinLimit(after)
  {
    hide Inverse;
    hide WithoutSlashes;
    hide Minted;
    hide Evicted;
    hide MountOf;
    hide Rejoined;
    if MountOf(g, session).Some? {
      RejoinKeepsInverse(g, session, auth, root);
      SameSize(g.mounts, Rejoined(g, session, auth, root).mounts);
    }
    MintKeepsInverse(g, session, WithoutSlashes(url), auth, root, offer);
    EvictKeepsInverse(Minted(g, session, WithoutSlashes(url), auth, root, offer));
  }

  lemma StepKeepsRegistry(g: Registry, op: Op)
    requires Inverse(g) && WithinLimit(g) && (op.Publish? ==> op.offer !in g.mounts && op.offer != "")
    ensures Inverse(Step(g, op)) && WithinLimit(Step(g, op))
  {
    hide Inverse;
    hide Mounted;
    hide RootReleased;
    match op
    case Publish(session, url, auth, root, offer) =>
      PublishKeepsRegistry(g, session, url, auth, root, offer);
    case ReleaseRoot(root, session) =>
      ReleaseKeepsInverse(g, root, session);
      ReleaseShrinks(g, root, session);
    case UnmountSession(session) =>
      var token := TokenForSession(g, session);
      if token.Some? {
        DropKeepsInverse(g, token.value);
        if token.value in g.mounts { DropShrinks(g, token.value); }
      }
  }

  lemma SameSize(a: map<string, Mount>, b: map<string, Mount>)
    ensures a.Keys == b.Keys ==> |a| == |b|
  {
    assert |a| == |a.Keys| && |b| == |b.Keys|;
  }

  lemma ReleaseShrinks(g: Registry, root: string, session: Option<string>)
    ensures |RootReleased(g, root, session).mounts| <= |g.mounts|
  {
    var token := TokenFor(g, root, session);
    hide TokenFor;
    if token.Some? && token.value in g.mounts {
      var mount := g.mounts[token.value].(roots := g.mounts[token.value].roots - {root});
      var g1 := g.(mounts := g.mounts[token.value := mount]);
      assert g1.mounts.Keys == g.mounts.Keys;
      SameSize(g.mounts, g1.mounts);
      DropShrinks(g1, token.value);
    }
  }

  /** Registry invariant: after any run with fresh tokens the two maps are inverse to each other, at
      most 64 mounts exist, and every token was offered. */
  lemma {:induction false} RunKeepsRegistry(ops: seq<Op>)
    requires FreshOffers(ops)
    ensures Inverse(Run(ops)) && WithinLimit(Run(ops))
    ensures forall t :: t in Run(ops).mounts ==> WasOffered(ops, t)
  {
    if ops != [] {
      var n := |ops| - 1;
      var g := Run(ops[..n]);
      RunKeepsRegistry(ops[..n]);
      assert forall t :: WasOffered(ops[..n], t) ==> WasOffered(ops, t);
      if ops[n].Publish? { assert !WasOffered(ops[..n], ops[n].offer); }
      hide Step;
      hide Inverse;
      StepKeepsRegistry(g, ops[n]);
      StepOnlyAdds(g, ops[n]);
    }
  }

  /** A token, once minted, names one address; once dropped, it never resolves again. */
  lemma {:induction false} TokensAreOneAddress(ops: seq<Op>, i: nat, token: string)
    requires FreshOffers(ops) && i <= |ops| && WasOffered(ops[..i], token)
    ensures token in Run(ops).mounts ==>
              token in Run(ops[..i]).mounts && SameAddress(Run(ops[..i]).mounts[token], Run(ops).mounts[token])
    decreases |ops|
  {
    hide Step;
    hide Inverse;
    hide WithinLimit;
    hide WasOffered;
    if i == |ops| {
      assert ops[..i] == ops;
    } else {
      var n := |ops| - 1;
      assert ops[..n][..i] == ops[..i];
      NeverReoffered(ops, i, token);
      hide FreshOffers;
      TokensAreOneAddress(ops[..n], i, token);
      RunKeepsRegistry(ops[..n]);
      StepOnlyAdds(Run(ops[..n]), ops[n]);
    }
  }

  lemma NeverReoffered(ops: seq<Op>, i: nat, token: string)
    requires FreshOffers(ops) && i < |ops| && WasOffered(ops[..i], token)
    ensures var n := |ops| - 1; FreshOffers(ops[..n]) && (ops[n].Publish? ==> ops[n].offer != token)
  {
    var j :| 0 <= j < i && ops[..i][j].Publish? && ops[..i][j].offer == token;
    assert ops[j].offer == token;
  }

  /** The order's last token survives eviction, so the newest mount is never the one evicted. */
  lemma {:induction false} EvictKeepsNewest(g: Registry, token: string)
    requires Inverse(g) && g.order != [] && g.order[|g.order| - 1] == token
    ensures token in Evicted(g).mounts
    decreases |g.mounts|
  {
    if |g.mounts| > MOUNT_LIMIT {
      NonEmptyOrder(g);
      var oldest := g.order[0];
      OldestIsNotNewest(g);
      DropShrinks(g, oldest);
      DropKeepsInverse(g, oldest);
      DropKeepsLast(g, oldest);
      hide Inverse;
      hide Dropped;
      EvictKeepsNewest(Dropped(g, oldest), token);
    } else {
      assert token in g.order;
    }
  }

  lemma DropKeepsLast(g: Registry, token: string)
    requires token in g.mounts && g.order != [] && g.order[|g.order| - 1] != token
    ensures var order := Dropped(g, token).order; order != [] && order[|order| - 1] == g.order[|g.order| - 1]
  {
  }

  lemma OldestIsNotNewest(g: Registry)
    requires Inverse(g) && |g.mounts| > 1
    ensures |g.order| > 1 && g.order[0] != g.order[|g.order| - 1]
  {
    var tokens := set t | t in g.order;
    assert g.mounts.Keys == tokens;
    FewTokens(g.order);
  }

  lemma FewTokens(order: seq<string>)
    ensures |order| <= 1 ==> |set t | t in order| <= 1
  {
    if |order| == 1 {
      assert (set t | t in order) == {order[0]};
    }
  }

  /** What a publisher gets: its token resolves to its address and holds its root, and if the session
      was published at another address before, that token is gone. */
  lemma PublishResolves(ops: seq<Op>, session: string, url: string, auth: Option<string>, root: Option<string>,
                        offer: string)
    requires FreshOffers(ops + [Publish(session, url, auth, root, offer)])
    ensures var before := Run(ops);
            var (after, token) := Mounted(before, session, url, auth, root, offer);
            && token in after.mounts
            && after.mounts[token].sessionId == session
            && after.mounts[token].baseUrl == WithoutSlashes(url)
            && RootSet(root) <= after.mounts[token].roots
            && TokenForSession(after, session) == Some(token)
            && forall t :: t in before.mounts && before.mounts[t].sessionId == session && t != token ==>
                t !in after.mounts
  {
    var op := Publish(session, url, auth, root, offer);
    var all := ops + [op];
    var g := Run(ops);
    assert FreshOffers(ops) by { assert forall i :: 0 <= i < |ops| ==> all[i] == ops[i]; }
    assert !WasOffered(ops, offer) by {
      assert all[|ops|].offer == offer;
      assert forall i :: 0 <= i < |ops| ==> all[i] == ops[i];
    }
    assert offer != "" by { assert all[|ops|] == op; }
    RunKeepsRegistry(ops);
    hide Run;
    PublishOnce(g, session, url, auth, root, offer);
  }

  lemma PublishOnce(g: Registry, session: string, url: string, auth: Option<string>, root: Option<string>,
                    offer: string)
    requires Inverse(g) && WithinLimit(g) && offer !in g.mounts && offer != ""
    ensures var (after, token) := Mounted(g, session, url, auth, root, offer);
            && token in after.mounts
            && after.mounts[token].sessionId == session
            && after.mounts[token].baseUrl == WithoutSlashes(url)
            && RootSet(root) <= after.mounts[token].roots
            && TokenForSession(after, session) == Some(token)
            && forall t :: t in g.mounts && g.mounts[t].sessionId == session && t != token ==> t !in after.mounts
  {
    PublishKeepsRegistry(g, session, url, auth, root, offer);
    if MountOf(g, session).None? || MountOf(g, session).value.baseUrl != WithoutSlashes(url) {
      MintOnce(g, session, WithoutSlashes(url), auth, root, offer);
    } else {
      RejoinOnce(g, session, auth, root);
    }
    hide Evicted;
    hide Minted;
    hide Rejoined;
    hide WithoutSlashes;
    hide RootSet;
    hide Listed;
    hide MountOf;
  }

  lemma RejoinOnce(g: Registry, session: string, auth: Option<string>, root: Option<string>)
    requires Inverse(g) && MountOf(g, session).Some?
    ensures var after, token := Rejoined(g, session, auth, root), g.tokenBySession[session];
            && token in after.mounts && after.mounts[token].sessionId == session
            && after.mounts[token].baseUrl == MountOf(g, session).value.baseUrl
            && RootSet(root) <= after.mounts[token].roots
            && TokenForSession(after, session) == Some(token)
            && forall t :: t in g.mounts && g.mounts[t].sessionId == session ==> t == token
  {
    hide Listed;
    MountOfIsSession(g, session);
  }

  lemma MintOnce(g: Registry, session: string, base: string, auth: Option<string>, root: Option<string>,
                 offer: string)
    requires Inverse(g) && offer !in g.mounts && offer != ""
    ensures var after := Evicted(Minted(g, session, base, auth, root, offer));
            && offer in after.mounts && after.mounts[offer] == Mount(session, base, auth, RootSet(root))
            && TokenForSession(after, session) == Some(offer)
            && forall t :: t in g.mounts && g.mounts[t].sessionId == session ==> t !in after.mounts
  {
    var minted := Minted(g, session, base, auth, root, offer);
    MintKeepsInverse(g, session, base, auth, root, offer);
    MintReplaces(g, session, base, auth, root, offer);
    EvictKeepsNewest(minted, offer);
    EvictOnlyDrops(minted);
    EvictKeepsInverse(minted);
    hide Evicted;
    hide Minted;
    hide Listed;
  }

  lemma MintReplaces(g: Registry, session: string, base: string, auth: Option<string>, root: Option<string>,
                     offer: string)
    requires Inverse(g) && offer !in g.mounts
    ensures var minted := Minted(g, session, base, auth, root, offer);
            && offer in minted.mounts && minted.mounts[offer] == Mount(session, base, auth, RootSet(root))
            && forall t :: t in g.mounts && g.mounts[t].sessionId == session ==> t !in minted.mounts
  {
    hide Listed;
    hide Filter;
    hide RootSet;
    MountOfIsSession(g, session);
  }

  /** A release takes the mount down exactly when no other root of this mount is left, and touches no
      other mount. */
  lemma ReleaseDropsTheLast(g: Registry, root: string, session: Option<string>)
    requires Inverse(g)
    ensures var token, after := TokenFor(g, root, session), RootReleased(g, root, session);
            && (forall t :: Some(t) != token ==> Lookup(after, t) == Lookup(g, t))
            && (token.Some? ==>
                  && token.value in g.mounts
                  && (token.value in after.mounts <==> g.mounts[token.value].roots - {root} != {})
                  && (token.value in after.mounts ==>
                      after.mounts[token.value].roots == g.mounts[token.value].roots - {root}))
  {
    var token := TokenFor(g, root, session);
    assert token.Some? ==> token.value in g.mounts;
    hide TokenFor;
    hide Inverse;
  }

  /** A concrete run: a change of address forgets a root that joined the old mount and was never
      released, and the next release blanks its panel. */
  lemma ReplacedMountForgetsRoots(session: string, a: string, b: string, r1: string, r2: string,
                                  t1: string, t2: string, t3: string)
    requires r1 != r2 && r1 != "" && r2 != "" && t1 != "" && WithoutSlashes(a) != WithoutSlashes(b)
    ensures var ops := [Publish(session, a, None, Some(r1), t1)] + [Publish(session, a, None, Some(r2), t2)]
                       + [Publish(session, b, None, Some(r1), t3)];
            && Run(ops + [ReleaseRoot(r1, Some(session))]).mounts == map[]
            && Unreleased(ops + [ReleaseRoot(r1, Some(session))], session, r2)
  {
    var op1, op2 := Publish(session, a, None, Some(r1), t1), Publish(session, a, None, Some(r2), t2);
    var op3, op4 := Publish(session, b, None, Some(r1), t3), ReleaseRoot(r1, Some(session));
    RunSnoc([], op1);
    RunSnoc([op1], op2);
    RunSnoc([op1] + [op2], op3);
    RunSnoc([op1] + [op2] + [op3], op4);
    assert [] + [op1] == [op1];
    hide Run;
    var url := WithoutSlashes(a);
    PublishesFirst(session, a, r1, t1);
    PublishesAgain(session, a, r1, r2, t1, t2);
    PublishesElsewhere(session, a, b, {r1, r2}, r1, t1, t3);
    ReleasesOnly(session, WithoutSlashes(b), r1, t3);
    hide Step;
    assert Step(Step(EMPTY_REGISTRY, op1), op2) == OneMount(session, url, {r1, r2}, t1);
    NeverReleased(op1, op2, op3, op4, session, r2);
  }

  /** A registry with one mount. */
  function OneMount(session: string, url: string, roots: set<string>, token: string): Registry {
    Registry([token], map[token := Mount(session, url, None, roots)], map[session := token])
  }

  lemma FewMounts(g: Registry, token: string)
    requires g.mounts.Keys == {token}
    ensures Evicted(g) == g
  {
    assert |g.mounts| == |g.mounts.Keys|;
  }

  lemma PublishesFirst(session: string, url: string, root: string, token: string)
    requires root != ""
    ensures Step(EMPTY_REGISTRY, Publish(session, url, None, Some(root), token))
         == OneMount(session, WithoutSlashes(url), {root}, token)
  {
    hide Evicted;
    hide WithoutSlashes;
    assert [] + [token] == [token];
    FewMounts(OneMount(session, WithoutSlashes(url), {root}, token), token);
  }

  lemma PublishesAgain(session: string, url: string, r1: string, r2: string, token: string, offer: string)
    requires r2 != "" && token != ""
    ensures Step(OneMount(session, WithoutSlashes(url), {r1}, token), Publish(session, url, None, Some(r2), offer))
         == OneMount(session, WithoutSlashes(url), {r1, r2}, token)
  {
    hide WithoutSlashes;
    assert {r1} + {r2} == {r1, r2};
  }

  lemma PublishesElsewhere(session: string, a: string, b: string, roots: set<string>, root: string, t1: string,
                           t2: string)
    requires WithoutSlashes(a) != WithoutSlashes(b) && root != "" && t1 != ""
    ensures Step(OneMount(session, WithoutSlashes(a), roots, t1), Publish(session, b, None, Some(root), t2))
         == OneMount(session, WithoutSlashes(b), {root}, t2)
  {
    hide WithoutSlashes;
    hide Evicted;
    DropsOnly(t1, Mount(session, WithoutSlashes(a), None, roots));
    hide Dropped;
    assert [] + [t2] == [t2];
    FewMounts(OneMount(session, WithoutSlashes(b), {root}, t2), t2);
  }

  lemma ReleasesOnly(session: string, url: string, root: string, token: string)
    ensures Step(OneMount(session, url, {root}, token), ReleaseRoot(root, Some(session))).mounts == map[]
  {
    assert {root} - {root} == {};
  }

  lemma DropsOnly(token: string, mount: Mount)
    ensures Dropped(Registry([token], map[token := mount], map[mount.sessionId := token]), token) == EMPTY_REGISTRY
  {
    assert [token][..0] == [];
    FilterNone(NotToken(token), [token]);
  }

  lemma RunSnoc(ops: seq<Op>, op: Op)
    ensures Run(ops + [op]) == Step(Run(ops), op)
  {
    assert (ops + [op])[..|ops|] == ops;
  }

  // ---------------------------------------------------------------------------
  // Which roots a mount holds
  // ---------------------------------------------------------------------------

  predicate Publishes(op: Op, session: string, root: string) {
    op.Publish? && op.session == session && op.root == Some(root) && root != ""
  }

  /** When the root was last published for the session; -1 if never. */
  function LastPublish(ops: seq<Op>, session: string, root: string): (at: int)
    ensures -1 <= at < |ops|
  {
    if ops == [] then -1
    else if Publishes(ops[|ops| - 1], session, root) then |ops| - 1
    else LastPublish(ops[..|ops| - 1], session, root)
  }

  /** When the token was offered; -1 if never. */
  function MintedAt(ops: seq<Op>, token: string): (at: int)
    ensures -1 <= at < |ops|
  {
    if ops == [] then -1
    else if ops[|ops| - 1].Publish? && ops[|ops| - 1].offer == token then |ops| - 1
    else MintedAt(ops[..|ops| - 1], token)
  }

  /** The release is about this session: the first mount that holds the root is its mount, or no mount
      holds the root and the call names the session. */
  predicate ReleasesFrom(g: Registry, op: Op, session: string, root: string) {
    && op.ReleaseRoot? && op.releasedRoot == root
    && var holder := HolderAmong(g, g.order, root);
       if holder.Some? then g.mounts[holder.value].sessionId == session else op.ofSession == Some(session)
  }

  /** Published for the session and not released from it since. */
  predicate Unreleased(ops: seq<Op>, session: string, root: string) {
    ops != []
    && var front, op := ops[..|ops| - 1], ops[|ops| - 1];
       Publishes(op, session, root)
       || (Unreleased(front, session, root) && !ReleasesFrom(Run(front), op, session, root))
  }

  lemma UnreleasedSnoc(ops: seq<Op>, op: Op, session: string, root: string)
    ensures Unreleased(ops + [op], session, root)
       <==> (Publishes(op, session, root)
             || (Unreleased(ops, session, root) && !ReleasesFrom(Run(ops), op, session, root)))
  {
    hide ReleasesFrom;
    hide Run;
    assert (ops + [op])[..|ops|] == ops;
  }

  lemma NeverReleased(op1: Op, op2: Op, op3: Op, op4: Op, session: string, root: string)
    requires Publishes(op2, session, root) && op3.Publish? && !(op4.ReleaseRoot? && op4.releasedRoot == root)
    ensures Unreleased([op1] + [op2] + [op3] + [op4], session, root)
  {
    hide Unreleased;
    hide Run;
    UnreleasedSnoc([op1], op2, session, root);
    UnreleasedSnoc([op1] + [op2], op3, session, root);
    UnreleasedSnoc([op1] + [op2] + [op3], op4, session, root);
  }

  lemma {:induction false} UnreleasedWasPublished(ops: seq<Op>, session: string, root: string)
    requires Unreleased(ops, session, root)
    ensures LastPublish(ops, session, root) >= 0 && root != ""
  {
    if !Publishes(ops[|ops| - 1], session, root) {
      UnreleasedWasPublished(ops[..|ops| - 1], session, root);
    }
  }

  /** The mount's roots, said of the calls alone. */
  ghost predicate Holds(ops: seq<Op>, token: string, session: string, root: string) {
    Unreleased(ops, session, root) && LastPublish(ops, session, root) >= MintedAt(ops, token)
  }

  /** One more call that does not offer the token. */
  lemma HoldsStep(ops: seq<Op>, op: Op, token: string, session: string, root: string)
    requires !(op.Publish? && op.offer == token)
    ensures Holds(ops + [op], token, session, root)
       <==> (Publishes(op, session, root)
             || (Holds(ops, token, session, root) && !ReleasesFrom(Run(ops), op, session, root)))
  {
    hide ReleasesFrom;
    hide Run;
    var all := ops + [op];
    assert all[..|ops|] == ops;
  }

  /** The call that offers the token. */
  lemma HoldsMinted(ops: seq<Op>, op: Op, session: string, root: string)
    requires op.Publish?
    ensures Holds(ops + [op], op.offer, session, root) <==> Publishes(op, session, root)
  {
    var all := ops + [op];
    assert all[..|ops|] == ops;
  }

  /** What a publish does to the mounts: the session's own mount gains the root or is replaced. */
  lemma PublishedRoots(g: Registry, op: Op, token: string, root: string)
    requires op.Publish? && Inverse(g) && op.offer !in g.mounts && token in Step(g, op).mounts
    ensures var session := Step(g, op).mounts[token].sessionId;
            root in Step(g, op).mounts[token].roots
            <==> (Publishes(op, session, root)
                  || (token != op.offer && token in g.mounts && root in g.mounts[token].roots))
    ensures token != op.offer ==>
              token in g.mounts && g.mounts[token].sessionId == Step(g, op).mounts[token].sessionId
  {
    MountOfIsSession(g, op.session);
    var base := WithoutSlashes(op.url);
    hide WithoutSlashes;
    if MountOf(g, op.session).Some? && MountOf(g, op.session).value.baseUrl == base {
      hide Evicted;
      hide Minted;
    } else {
      MintedRoots(g, op.session, base, op.auth, op.root, op.offer, token, root);
      EvictOnlyDrops(Minted(g, op.session, base, op.auth, op.root, op.offer));
      hide Evicted;
      hide Minted;
    }
  }

  lemma MintedRoots(g: Registry, session: string, url: string, auth: Option<string>, published: Option<string>,
                    offer: string, token: string, root: string)
    requires Inverse(g) && offer !in g.mounts
    ensures var after := Minted(g, session, url, auth, published, offer);
            token in after.mounts ==>
              if token == offer then
                && after.mounts[token].sessionId == session
                && (root in after.mounts[token].roots <==> published == Some(root) && root != "")
              else
                token in g.mounts && after.mounts[token] == g.mounts[token] && after.mounts[token].sessionId != session
  {
    MountOfIsSession(g, session);
    hide MountOf;
    hide Filter;
  }

  /** What a release does to the mounts: the one it is about loses the root. */
  lemma ReleasedRoots(g: Registry, op: Op, token: string, root: string)
    requires op.ReleaseRoot? && Inverse(g) && token in Step(g, op).mounts
    ensures token in g.mounts && g.mounts[token].sessionId == Step(g, op).mounts[token].sessionId
    ensures root in Step(g, op).mounts[token].roots
       <==> root in g.mounts[token].roots && !ReleasesFrom(g, op, g.mounts[token].sessionId, root)
  {
    var holder := HolderAmong(g, g.order, op.releasedRoot);
    var found := TokenFor(g, op.releasedRoot, op.ofSession);
    assert token in g.mounts ==>
             (found == Some(token) <==>
                if holder.Some? then g.mounts[holder.value].sessionId == g.mounts[token].sessionId
                else op.ofSession == Some(g.mounts[token].sessionId));
    hide TokenFor;
    hide HolderAmong;
  }

  lemma UnmountedRoots(g: Registry, op: Op, token: string)
    requires op.UnmountSession? && token in Step(g, op).mounts
    ensures token in g.mounts && Step(g, op).mounts[token] == g.mounts[token]
  {
  }

  /** A mount's roots are exactly those published for its session since its token was minted and not
      released from it since. */
  lemma {:induction false} HeldRoots(ops: seq<Op>, token: string, root: string)
    requires FreshOffers(ops) && token in Run(ops).mounts
    ensures root in Run(ops).mounts[token].roots <==> Holds(ops, token, Run(ops).mounts[token].sessionId, root)
    decreases |ops|
  {
    hide *;
    RunsNonEmpty(ops, token);
    var front, op := ops[..|ops| - 1], ops[|ops| - 1];
    assert ops == front + [op];
    RunSnoc(front, op);
    OfferIsNew(ops);
    RunKeepsRegistry(front);
    if op.Publish? {
      HeldAfterPublish(front, op, token, root);
      if token != op.offer { HeldRoots(front, token, root); }
    } else {
      HeldAfterOther(front, op, token, root);
      HeldRoots(front, token, root);
    }
  }

  lemma RunsNonEmpty(ops: seq<Op>, token: string)
    requires token in Run(ops).mounts
    ensures ops != []
  {
  }

  lemma HeldAfterPublish(front: seq<Op>, op: Op, token: string, root: string)
    requires op.Publish? && Inverse(Run(front)) && op.offer !in Run(front).mounts
        && token in Step(Run(front), op).mounts
    ensures var g, after := Run(front), Step(Run(front), op);
            var session := after.mounts[token].sessionId;
            if token == op.offer then
              root in after.mounts[token].roots <==> Holds(front + [op], token, session, root)
            else
              && token in g.mounts && g.mounts[token].sessionId == session
              && ((root in g.mounts[token].roots <==> Holds(front, token, session, root)) ==>
                    (root in after.mounts[token].roots <==> Holds(front + [op], token, session, root)))
  {
    hide *;
    var session := Step(Run(front), op).mounts[token].sessionId;
    PublishedRoots(Run(front), op, token, root);
    if token == op.offer {
      HoldsMinted(front, op, session, root);
    } else {
      HoldsStep(front, op, token, session, root);
      NoReleaseIn(Run(front), op, session, root);
    }
  }

  lemma HeldAfterOther(front: seq<Op>, op: Op, token: string, root: string)
    requires !op.Publish? && Inverse(Run(front)) && token in Step(Run(front), op).mounts
    ensures var g, after := Run(front), Step(Run(front), op);
            var session := after.mounts[token].sessionId;
            && token in g.mounts && g.mounts[token].sessionId == session
            && ((root in g.mounts[token].roots <==> Holds(front, token, session, root)) ==>
                  (root in after.mounts[token].roots <==> Holds(front + [op], token, session, root)))
  {
    hide *;
    var session := Step(Run(front), op).mounts[token].sessionId;
    if op.ReleaseRoot? {
      ReleasedRoots(Run(front), op, token, root);
    } else {
      UnmountedRoots(Run(front), op, token);
      NoReleaseIn(Run(front), op, session, root);
    }
    NoPublishIn(op, session, root);
    HoldsStep(front, op, token, session, root);
  }

  lemma NoReleaseIn(g: Registry, op: Op, session: string, root: string)
    requires !op.ReleaseRoot?
    ensures !ReleasesFrom(g, op, session, root)
  {
  }

  lemma NoPublishIn(op: Op, session: string, root: string)
    requires !op.Publish?
    ensures !Publishes(op, session, root)
  {
  }

  lemma OfferIsNew(ops: seq<Op>)
    requires FreshOffers(ops) && ops != []
    ensures var n := |ops| - 1; FreshOffers(ops[..n]) && (ops[n].Publish? ==> ops[n].offer !in Run(ops[..n]).mounts)
  {
    var n := |ops| - 1;
    RunKeepsRegistry(ops[..n]);
    hide Run;
  }

  /** Only the session's last root unmounts it, up to this: a release takes the mount down exactly when
      no other root holds it, that is, when every other root still published and unreleased was last
      published before the token was minted, be it at a change of address or after an eviction or unmount. */
  lemma ReleaseUnmountsExactly(ops: seq<Op>, root: string, session: Option<string>)
    requires FreshOffers(ops)
    ensures var g := Run(ops);
            match TokenFor(g, root, session)
            case None => RootReleased(g, root, session) == g
            case Some(token) =>
              && token in g.mounts
              && var owner := g.mounts[token].sessionId;
                 token !in RootReleased(g, root, session).mounts
                 <==> forall other :: other != root ==> !Holds(ops, token, owner, other)
  {
    hide *;
    var g := Run(ops);
    RunKeepsRegistry(ops);
    NothingToRelease(g, root, session);
    if TokenFor(g, root, session).Some? {
      var token := TokenFor(g, root, session).value;
      ReleaseDropsTheLast(g, root, session);
      var roots, owner := g.mounts[token].roots, g.mounts[token].sessionId;
      forall other ensures other in roots <==> Holds(ops, token, owner, other) {
        HeldRoots(ops, token, other);
      }
      OthersHeld(ops, token, owner, root, roots);
    }
  }

  lemma NothingToRelease(g: Registry, root: string, session: Option<string>)
    ensures TokenFor(g, root, session).None? ==> RootReleased(g, root, session) == g
  {
    hide TokenFor;
  }

  lemma OthersHeld(ops: seq<Op>, token: string, owner: string, root: string, roots: set<string>)
    requires forall other :: other in roots <==> Holds(ops, token, owner, other)
    ensures roots - {root} == {} <==> forall other :: other != root ==> !Holds(ops, token, owner, other)
  {
    hide Holds;
    if roots - {root} == {} {
      forall other | other != root ensures !Holds(ops, token, owner, other) {
        assert other !in roots - {root};
      }
    } else {
      var other :| other in roots - {root};
      assert Holds(ops, token, owner, other);
    }
  }

  /** With one other root left, published and unreleased, the release unmounts its session all the same
      exactly when the token was minted after that root's last publish. */
  lemma OneOtherRootDecides(ops: seq<Op>, root: string, session: Option<string>, other: string)
    requires FreshOffers(ops) && TokenFor(Run(ops), root, session).Some? && other != root
    requires TokenFor(Run(ops), root, session).value in Run(ops).mounts
    requires var token := TokenFor(Run(ops), root, session).value;
             var owner := Run(ops).mounts[token].sessionId;
             && Unreleased(ops, owner, other)
             && forall third :: third != root && third != other ==> !Holds(ops, token, owner, third)
    ensures var token := TokenFor(Run(ops), root, session).value;
            token !in RootReleased(Run(ops), root, session).mounts
            <==> LastPublish(ops, Run(ops).mounts[token].sessionId, other) < MintedAt(ops, token)
  {
    hide *;
    ReleaseUnmountsExactly(ops, root, session);
    var token := TokenFor(Run(ops), root, session).value;
    HoldsMeans(ops, token, Run(ops).mounts[token].sessionId, other);
  }

  lemma HoldsMeans(ops: seq<Op>, token: string, session: string, root: string)
    requires Unreleased(ops, session, root)
    ensures Holds(ops, token, session, root) <==> LastPublish(ops, session, root) >= MintedAt(ops, token)
  {
  }

  /** A session without a mount at this address, be it by a move, an eviction or an unmount, is mounted
      anew with the publishing root alone; releasing that root unmounts it, whoever else still counts. */
  lemma RepublishForgets(ops: seq<Op>, session: string, url: string, auth: Option<string>, root: string, offer: string)
    requires FreshOffers(ops + [Publish(session, url, auth, Some(root), offer)]) && root != ""
    requires var mount := MountOf(Run(ops), session); mount.None? || mount.value.baseUrl != WithoutSlashes(url)
    requires TokenFor(Run(ops + [Publish(session, url, auth, Some(root), offer)]), root, Some(session)) == Some(offer)
    ensures var after := Run(ops + [Publish(session, url, auth, Some(root), offer)]);
            && offer in after.mounts && after.mounts[offer].roots == {root}
            && offer !in RootReleased(after, root, Some(session)).mounts
  {
    hide *;
    var op := Publish(session, url, auth, Some(root), offer);
    var all := ops + [op];
    assert all[..|ops|] == ops && all[|ops|] == op;
    OfferIsNew(all);
    FreshFront(ops, op);
    RunKeepsRegistry(ops);
    RunSnoc(ops, op);
    MintedForgets(Run(ops), session, url, auth, root, offer);
    StepPublishes(Run(ops), op);
  }

  lemma FreshFront(ops: seq<Op>, op: Op)
    requires FreshOffers(ops + [op])
    ensures FreshOffers(ops) && (op.Publish? ==> op.offer != "")
  {
    var all := ops + [op];
    assert all[|ops|] == op && forall i :: 0 <= i < |ops| ==> all[i] == ops[i];
  }

  lemma StepPublishes(g: Registry, op: Op)
    requires op.Publish?
    ensures Step(g, op) == Mounted(g, op.session, op.url, op.auth, op.root, op.offer).0
  {
  }

  lemma MintedForgets(g: Registry, session: string, url: string, auth: Option<string>, root: string, offer: string)
    requires Inverse(g) && WithinLimit(g) && offer !in g.mounts && offer != "" && root != ""
    requires var mount := MountOf(g, session); mount.None? || mount.value.baseUrl != WithoutSlashes(url)
    ensures var after := Mounted(g, session, url, auth, Some(root), offer).0;
            && offer in after.mounts && after.mounts[offer].roots == {root}
            && (TokenFor(after, root, Some(session)) == Some(offer) ==>
                  offer !in RootReleased(after, root, Some(session)).mounts)
  {
    PublishOnce(g, session, url, auth, Some(root), offer);
    EvictOnlyDrops(Minted(g, session, WithoutSlashes(url), auth, Some(root), offer));
    hide Evicted;
    hide WithoutSlashes;
    hide TokenFor;
    hide Inverse;
    hide Filter;
    assert {root} - {root} == {};
  }

  // ---------------------------------------------------------------------------
  // Addresses, headers and eviction order
  // ---------------------------------------------------------------------------

  function Slashes(n: nat): string {
    seq(n, i => '/')
  }

  /** An address is kept without the slashes at its end, and nothing else is taken from it. */
  lemma {:induction false} OnlySlashesGo(url: string) returns (n: nat)
    ensures url == WithoutSlashes(url) + Slashes(n)
    ensures WithoutSlashes(url) != "" ==> WithoutSlashes(url)[|WithoutSlashes(url)| - 1] != '/'
  {
    if url != "" && url[|url| - 1] == '/' {
      n := OnlySlashesGo(url[..|url| - 1]);
      n := n + 1;
      assert url == url[..|url| - 1] + ['/'];
      assert Slashes(n) == Slashes(n - 1) + ['/'];
    } else {
      n := 0;
    }
  }

  /** Publishing again at the same address keeps the headers unless it brings new ones, and adds the root. */
  lemma RejoinKeepsHeaders(g: Registry, session: string, url: string, auth: Option<string>, root: Option<string>,
                           offer: string)
    requires Inverse(g) && MountOf(g, session).Some? && MountOf(g, session).value.baseUrl == WithoutSlashes(url)
    ensures var (after, token) := Mounted(g, session, url, auth, root, offer);
            && token == g.tokenBySession[session] && token in after.mounts && token in g.mounts
            && after.mounts[token].auth == (if auth.Some? then auth else g.mounts[token].auth)
            && after.mounts[token].roots
               == g.mounts[token].roots + (if root.Some? && root.value != "" then {root.value} else {})
            && after.order == g.order && after.tokenBySession == g.tokenBySession
  {
    MountOfIsSession(g, session);
    hide WithoutSlashes;
    hide Inverse;
  }

  /** Eviction keeps the newest 64 mounts, in order, as they are. */
  lemma {:induction false} EvictKeepsTheNewest(g: Registry)
    requires Inverse(g)
    ensures |g.mounts| == |g.order|
    ensures Evicted(g).order == if |g.order| > 64 then g.order[|g.order| - 64..] else g.order
    ensures forall t :: t in Evicted(g).order ==> t in Evicted(g).mounts && Evicted(g).mounts[t] == g.mounts[t]
    decreases |g.mounts|
  {
    OrderCounts(g.order, g.mounts.Keys);
    assert |g.mounts| == |g.mounts.Keys|;
    EvictKeepsInverse(g);
    EvictOnlyDrops(g);
    if |g.mounts| > MOUNT_LIMIT {
      NonEmptyOrder(g);
      DropShrinks(g, g.order[0]);
      DropKeepsInverse(g, g.order[0]);
      OldestGoes(g);
      EvictKeepsTheNewest(Dropped(g, g.order[0]));
    }
  }

  lemma {:induction false} OrderCounts(order: seq<string>, keys: set<string>)
    requires NoDuplicates(order) && forall t :: t in order <==> t in keys
    ensures |order| == |keys|
  {
    if order != [] {
      var front, last := order[..|order| - 1], order[|order| - 1];
      assert order == front + [last] && last in order;
      forall t ensures t in front <==> t in keys - {last} {
        if t in front { assert t in order; }
      }
      OrderCounts(front, keys - {last});
    } else {
      assert keys == {};
    }
  }

  lemma OldestGoes(g: Registry)
    requires Inverse(g) && g.order != []
    ensures Dropped(g, g.order[0]).order == g.order[1..]
  {
    var first, rest := g.order[0], g.order[1..];
    assert g.order == [first] + rest && first in g.order;
    FilterConcat(NotToken(first), [first], rest);
    FilterNone(NotToken(first), [first]);
    forall t | t in rest ensures t != first {
      var j :| 0 <= j < |rest| && rest[j] == t;
      assert g.order[j + 1] == t;
    }
    FilterAll(NotToken(first), rest);
  }
}
