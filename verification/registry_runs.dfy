/** What every run of registry transactions keeps. */
module RegistryRuns {
  import opened MeshStore
  import opened Outcomes
  import opened Registry
  import Scopes

  type Tokens = map<string, Token>
  type Nodes = map<string, Node>

  // ----- The invariant -----------------------------------------------------------------------

  predicate KeysMatch(tokens: Tokens, nodes: Nodes) {
    && (forall id :: id in tokens ==> tokens[id].tokenId == id)
    && (forall id :: id in nodes ==> nodes[id].identity.nodeId == id)
  }

  predicate JobsKeyed(jobs: map<string, Job>) {
    forall id :: id in jobs ==> jobs[id].jobId == id
  }

  predicate RevokedHasNoSession(n: Node) {
    n.revokedAt.Some? ==> n.sessionId.None?
  }

  predicate RevokedOffline(nodes: Nodes) {
    forall id :: id in nodes ==> RevokedHasNoSession(nodes[id])
  }

  /** The identity is the token's grant, bound to one key. */
  predicate GrantedBy(i: Identity, t: Token) {
    i.nodeName == t.nodeName && i.kind == t.kind && i.platform == t.platform && i.granted == t.granted
    && i.scopes == t.scopes
  }

  predicate NodeBound(tokens: Tokens, id: string, n: Node) {
    var tokenId := n.identity.tokenId;
    tokenId in tokens && GrantedBy(n.identity, tokens[tokenId]) && tokens[tokenId].consumedBy == Some(id)
  }

  /** Every node stands for a token it consumed ... */
  predicate NodesBound(tokens: Tokens, nodes: Nodes) {
    forall id :: id in nodes ==> NodeBound(tokens, id, nodes[id])
  }

  predicate TokenSpent(tokenId: string, t: Token, nodes: Nodes) {
    && (t.consumedAt.Some? <==> t.consumedBy.Some?)
    && (t.consumedBy.Some? ==>
          t.consumedBy.value in nodes && nodes[t.consumedBy.value].identity.tokenId == tokenId)
  }

  /** ... and every consumed token for the node that consumed it. */
  predicate TokensSpent(tokens: Tokens, nodes: Nodes) {
    forall id :: id in tokens ==> TokenSpent(id, tokens[id], nodes)
  }

  predicate ScopesParse(s: Settings, tokens: Tokens) {
    forall id :: id in tokens ==> Scopes.AllBuild(s.rules, tokens[id].scopes, tokens[id].platform)
  }

  ghost predicate Invariant(s: Settings, r: Recipe, m: Mesh) {
    && KeysMatch(m.tokens, m.nodes) && RevokedOffline(m.nodes) && NodesBound(m.tokens, m.nodes)
    && TokensSpent(m.tokens, m.nodes) && ScopesParse(s, m.tokens) && JobsKeyed(m.jobs) && Verifies(r, m.events)
  }

  // ----- Steps other than enrolling ------------------------------------------------------------

  /** A change to a node that enrollment did not make. */
  predicate NodeKept(before: Node, after: Node) {
    && after.identity == before.identity
    && (before.revokedAt.Some? ==> after.revokedAt == before.revokedAt)
    && (RevokedHasNoSession(before) ==> RevokedHasNoSession(after))
  }

  predicate NodesKept(before: Nodes, after: Nodes) {
    after.Keys == before.Keys && forall id :: id in before ==> NodeKept(before[id], after[id])
  }

  predicate TokenKept(before: Token, after: Token) {
    after == before.(revokedAt := after.revokedAt)
  }

  /** Tokens stay as they are but for being revoked; new ones are unspent. */
  predicate TokensKept(s: Settings, before: Tokens, after: Tokens) {
    && (forall id :: id in before ==> id in after && TokenKept(before[id], after[id]))
    && (forall id :: id in after && id !in before ==>
          && after[id].tokenId == id && after[id].consumedAt.None? && after[id].consumedBy.None?
          && Scopes.AllBuild(s.rules, after[id].scopes, after[id].platform))
  }

  lemma OneNodeKept(nodes: Nodes, id: string, n: Node)
    requires id in nodes && NodeKept(nodes[id], n)
    ensures NodesKept(nodes, nodes + map[id := n])
  {
  }

  lemma SessionsKept(nodes: Nodes, writes: Nodes)
    requires forall id :: id in writes ==> id in nodes && writes[id] == Disconnected(nodes[id])
    ensures NodesKept(nodes, nodes + writes)
  {
  }

  lemma StepKeepsNodes(s: Settings, r: Recipe, m: Mesh, step: Step)
    requires !step.Redeem?
    ensures NodesKept(m.nodes, Apply(s, r, m, step).nodes)
  {
    hide LinkAll, Mintable, SweepDrafts, NodeRestartDrafts, JobRestartDrafts, NodesKept;
    NothingKeepsNodes(m.nodes);
    match step
    case Attach(id, session, declared, version, architecture, at) =>
      var b := AttachWrites(s, m, id, session, declared, version, architecture, at);
      if b.Some? { OneNodeKept(m.nodes, id, b.value.nodes[id]); }
    case Detach(id, session, reason) =>
      if DetachWrites(m, id, session, reason) != NO_WRITES { OneNodeKept(m.nodes, id, Disconnected(m.nodes[id])); }
    case Heartbeat(id, session, health) =>
      var b := HeartbeatWrites(m, id, session, health);
      if b.Some? { OneNodeKept(m.nodes, id, b.value.nodes[id]); }
    case Sweep(order, at) => SessionsKept(m.nodes, SweepWrites(s, m, order, at).nodes);
    case Recover(nodeOrder, jobOrder, at) => SessionsKept(m.nodes, RecoverWrites(m, nodeOrder, jobOrder, at).nodes);
    case Change(id, change, actor, reason, at) =>
      if LifecycleWrites(m, id, change, actor, reason, at).Some? {
        OneNodeKept(m.nodes, id, Changed(m.nodes[id], change, reason, at));
      }
    case _ =>
  }

  lemma NothingKeepsNodes(nodes: Nodes)
    ensures nodes + map[] == nodes && NodesKept(nodes, nodes)
  {
  }

  lemma StepKeepsTokens(s: Settings, r: Recipe, m: Mesh, step: Step)
    requires !step.Redeem? && FreshIds(m, step)
    ensures TokensKept(s, m.tokens, Apply(s, r, m, step).tokens)
  {
    hide LinkAll, SweepDrafts, NodeRestartDrafts, JobRestartDrafts;
    assert m.tokens + map[] == m.tokens;
    if step.Issue? && Mintable(s, step.grant) {
      Scopes.CanonicalBuilds(s.rules, step.grant.scopes, step.grant.platform);
    }
  }

  lemma KeptBindings(s: Settings, tokens: Tokens, nodes: Nodes, tokens': Tokens, nodes': Nodes)
    requires TokensKept(s, tokens, tokens') && NodesKept(nodes, nodes') && KeysMatch(tokens, nodes)
    requires NodesBound(tokens, nodes) && TokensSpent(tokens, nodes)
    ensures KeysMatch(tokens', nodes') && NodesBound(tokens', nodes') && TokensSpent(tokens', nodes')
  {
    hide Scopes.AllBuild;
    forall id | id in nodes' ensures NodeBound(tokens', id, nodes'[id]) {
      assert NodeKept(nodes[id], nodes'[id]) && NodeBound(tokens, id, nodes[id]);
    }
    forall id | id in tokens' ensures TokenSpent(id, tokens'[id], nodes') {
      if id in tokens {
        assert TokenKept(tokens[id], tokens'[id]) && TokenSpent(id, tokens[id], nodes);
      }
    }
  }

  lemma KeptScopes(s: Settings, tokens: Tokens, tokens': Tokens)
    requires TokensKept(s, tokens, tokens') && ScopesParse(s, tokens)
    ensures ScopesParse(s, tokens')
  {
  }

  lemma KeptSessions(nodes: Nodes, nodes': Nodes)
    requires NodesKept(nodes, nodes') && RevokedOffline(nodes)
    ensures RevokedOffline(nodes')
  {
  }

  // ----- Enrolling --------------------------------------------------------------------------------

  /** What a successful redemption writes. */
  predicate Enrolls(tokens: Tokens, nodes: Nodes, tokens': Tokens, nodes': Nodes, tokenId: string, nodeId: string) {
    && tokenId in tokens && tokens[tokenId].consumedAt.None? && nodeId !in nodes
    && nodeId in nodes' && nodes' == nodes[nodeId := nodes'[nodeId]]
    && tokenId in tokens' && tokens' == tokens[tokenId := tokens'[tokenId]]
    && tokens'[tokenId] == tokens[tokenId].(consumedAt := tokens'[tokenId].consumedAt, consumedBy := Some(nodeId))
    && tokens'[tokenId].consumedAt.Some?
    && nodes'[nodeId].identity.nodeId == nodeId && nodes'[nodeId].identity.tokenId == tokens[tokenId].tokenId
    && GrantedBy(nodes'[nodeId].identity, tokens[tokenId]) && nodes'[nodeId].revokedAt.None?
  }

  lemma RedeemEnrollsOrKeeps(s: Settings, r: Recipe, m: Mesh, step: Step)
    requires step.Redeem? && FreshIds(m, step) && KeysMatch(m.tokens, m.nodes)
    ensures var after := Apply(s, r, m, step);
            || (after.tokens == m.tokens && after.nodes == m.nodes)
            || Enrolls(m.tokens, m.nodes, after.tokens, after.nodes, step.presentedId, step.newNodeId)
  {
    hide LinkAll;
    assert m.tokens + map[] == m.tokens && m.nodes + map[] == m.nodes;
    var after := Apply(s, r, m, step);
    if after.nodes != m.nodes {
      assert after.nodes == m.nodes[step.newNodeId := after.nodes[step.newNodeId]];
      assert after.tokens == m.tokens[step.presentedId := after.tokens[step.presentedId]];
    }
  }

  lemma EnrollBindings(tokens: Tokens, nodes: Nodes, tokens': Tokens, nodes': Nodes, tokenId: string, nodeId: string)
    requires Enrolls(tokens, nodes, tokens', nodes', tokenId, nodeId) && KeysMatch(tokens, nodes)
    requires NodesBound(tokens, nodes) && TokensSpent(tokens, nodes)
    ensures KeysMatch(tokens', nodes') && NodesBound(tokens', nodes') && TokensSpent(tokens', nodes')
  {
    assert TokenSpent(tokenId, tokens[tokenId], nodes);
    forall id | id in nodes' ensures NodeBound(tokens', id, nodes'[id]) {
      if id != nodeId {
        assert NodeBound(tokens, id, nodes[id]);
      }
    }
    forall id | id in tokens' ensures TokenSpent(id, tokens'[id], nodes') {
      if id != tokenId {
        assert TokenSpent(id, tokens[id], nodes);
      }
    }
  }

  lemma EnrollRest(s: Settings, tokens: Tokens, nodes: Nodes, tokens': Tokens, nodes': Nodes, tokenId: string, nodeId: string)
    requires Enrolls(tokens, nodes, tokens', nodes', tokenId, nodeId) && RevokedOffline(nodes) && ScopesParse(s, tokens)
    ensures RevokedOffline(nodes') && ScopesParse(s, tokens')
  {
  }

  // ----- Every run ----------------------------------------------------------------------------------

  lemma StepKeepsChain(s: Settings, r: Recipe, m: Mesh, step: Step)
    requires Verifies(r, m.events)
    ensures Verifies(r, Apply(s, r, m, step).events) && m.events <= Apply(s, r, m, step).events
  {
    hide Verifies, WritesOf;
    var b := WritesOf(s, m, step);
    if b.Some? { CommitKeepsVerifying(r, m, b.value); }
  }

  lemma StepKeepsJobs(s: Settings, r: Recipe, m: Mesh, step: Step)
    requires JobsKeyed(m.jobs)
    ensures JobsKeyed(Apply(s, r, m, step).jobs)
  {
    hide LinkAll, Mintable, SweepDrafts, NodeRestartDrafts, JobRestartDrafts;
  }

  lemma StepKeepsInvariant(s: Settings, r: Recipe, m: Mesh, step: Step)
    requires Invariant(s, r, m) && FreshIds(m, step)
    ensures Invariant(s, r, Apply(s, r, m, step))
  {
    StepKeepsChain(s, r, m, step);
    StepKeepsJobs(s, r, m, step);
    var after := Apply(s, r, m, step);
    hide Apply, Verifies, JobsKeyed, KeysMatch, RevokedOffline, NodesBound, TokensSpent, ScopesParse, TokensKept, NodesKept, Enrolls;
    if step.Redeem? {
      RedeemEnrollsOrKeeps(s, r, m, step);
      if !(after.tokens == m.tokens && after.nodes == m.nodes) {
        EnrollBindings(m.tokens, m.nodes, after.tokens, after.nodes, step.presentedId, step.newNodeId);
        EnrollRest(s, m.tokens, m.nodes, after.tokens, after.nodes, step.presentedId, step.newNodeId);
      }
    } else {
      StepKeepsNodes(s, r, m, step);
      StepKeepsTokens(s, r, m, step);
      KeptBindings(s, m.tokens, m.nodes, after.tokens, after.nodes);
      KeptScopes(s, m.tokens, after.tokens);
      KeptSessions(m.nodes, after.nodes);
    }
  }

  lemma MintsFreshPrefix(s: Settings, r: Recipe, steps: seq<Step>, n: nat)
    requires MintsFreshIds(s, r, steps) && n <= |steps|
    ensures MintsFreshIds(s, r, steps[..n])
    ensures n < |steps| ==> FreshIds(Run(s, r, steps[..n]), steps[n])
  {
    forall i | 0 <= i < n ensures FreshIds(Run(s, r, steps[..n][..i]), steps[..n][i]) {
      assert steps[..n][..i] == steps[..i] && steps[..n][i] == steps[i];
    }
  }

  /** Every reachable mesh satisfies the invariant. */
  lemma {:induction false} InvariantHolds(s: Settings, r: Recipe, steps: seq<Step>)
    requires MintsFreshIds(s, r, steps)
    ensures Invariant(s, r, Run(s, r, steps))
  {
    if steps != [] {
      MintsFreshPrefix(s, r, steps, |steps| - 1);
      InvariantHolds(s, r, steps[..|steps| - 1]);
      StepKeepsInvariant(s, r, Run(s, r, steps[..|steps| - 1]), steps[|steps| - 1]);
    }
  }

  /** Consumed tokens and nodes correspond one to one. */
  lemma EnrollmentIsOneToOne(s: Settings, r: Recipe, m: Mesh)
    requires Invariant(s, r, m)
    ensures forall id :: id in m.nodes ==>
              m.nodes[id].identity.tokenId in m.tokens
              && m.tokens[m.nodes[id].identity.tokenId].consumedBy == Some(id)
              && GrantedBy(m.nodes[id].identity, m.tokens[m.nodes[id].identity.tokenId])
    ensures forall a, b :: a in m.nodes && b in m.nodes && m.nodes[a].identity.tokenId == m.nodes[b].identity.tokenId
              ==> a == b
    ensures forall t :: t in m.tokens && m.tokens[t].consumedAt.Some? ==>
              m.tokens[t].consumedBy.Some? && m.tokens[t].consumedBy.value in m.nodes
              && m.nodes[m.tokens[t].consumedBy.value].identity.tokenId == t
  {
  }

  // ----- What later states keep of earlier ones -------------------------------------------------------

  predicate NodeEndures(before: Node, after: Node) {
    after.identity == before.identity && (before.revokedAt.Some? ==> after.revokedAt == before.revokedAt)
  }

  /** Nodes stay, with identity and revocation; spent tokens stay spent as they were. */
  predicate Endures(m: Mesh, later: Mesh) {
    && (forall id :: id in m.nodes ==> id in later.nodes && NodeEndures(m.nodes[id], later.nodes[id]))
    && (forall id :: id in m.tokens && m.tokens[id].consumedBy.Some? ==>
          id in later.tokens && later.tokens[id].consumedBy == m.tokens[id].consumedBy)
    && m.events <= later.events
  }

  lemma EnrollEndures(m: Mesh, later: Mesh, tokenId: string, nodeId: string)
    requires Enrolls(m.tokens, m.nodes, later.tokens, later.nodes, tokenId, nodeId) && m.events <= later.events
    requires TokensSpent(m.tokens, m.nodes)
    ensures Endures(m, later)
  {
    assert TokenSpent(tokenId, m.tokens[tokenId], m.nodes);
  }

  lemma KeptEndures(s: Settings, m: Mesh, later: Mesh)
    requires TokensKept(s, m.tokens, later.tokens) && NodesKept(m.nodes, later.nodes) && m.events <= later.events
    ensures Endures(m, later)
  {
    hide Scopes.AllBuild;
  }

  lemma StepEndures(s: Settings, r: Recipe, m: Mesh, step: Step)
    requires Invariant(s, r, m) && FreshIds(m, step)
    ensures Endures(m, Apply(s, r, m, step))
  {
    hide Apply, Verifies, KeysMatch, RevokedOffline, NodesBound, TokensSpent, ScopesParse, JobsKeyed, TokensKept,
         NodesKept, Enrolls;
    StepKeepsChain(s, r, m, step);
    var later := Apply(s, r, m, step);
    if step.Redeem? {
      RedeemEnrollsOrKeeps(s, r, m, step);
      if later.tokens != m.tokens || later.nodes != m.nodes {
        EnrollEndures(m, later, step.presentedId, step.newNodeId);
      }
    } else {
      StepKeepsNodes(s, r, m, step);
      StepKeepsTokens(s, r, m, step);
      KeptEndures(s, m, later);
    }
  }

  lemma EnduresTransitive(a: Mesh, b: Mesh, c: Mesh)
    requires Endures(a, b) && Endures(b, c)
    ensures Endures(a, c)
  {
  }

  lemma {:induction false} RunEndures(s: Settings, r: Recipe, steps: seq<Step>, n: nat)
    requires MintsFreshIds(s, r, steps) && n <= |steps|
    ensures Endures(Run(s, r, steps[..n]), Run(s, r, steps))
    decreases |steps|
  {
    hide Invariant, FreshIds, MintsFreshIds, Apply;
    if n == |steps| {
      assert steps[..n] == steps;
    } else {
      hide Endures;
      var last := |steps| - 1;
      MintsFreshPrefix(s, r, steps, last);
      assert steps[..last][..n] == steps[..n];
      RunEndures(s, r, steps[..last], n);
      InvariantHolds(s, r, steps[..last]);
      StepEndures(s, r, Run(s, r, steps[..last]), steps[last]);
      EnduresTransitive(Run(s, r, steps[..n]), Run(s, r, steps[..last]), Run(s, r, steps));
    }
  }

  /** Once revoked, always revoked, at the same moment, and never with a session;
      the key, grant and scopes are the ones enrolled with, ever after. */
  lemma RevocationIsPermanent(s: Settings, r: Recipe, steps: seq<Step>, n: nat, id: string)
    requires MintsFreshIds(s, r, steps) && n <= |steps| && id in Run(s, r, steps[..n]).nodes
    ensures id in Run(s, r, steps).nodes
    ensures var was, now := Run(s, r, steps[..n]).nodes[id], Run(s, r, steps).nodes[id];
            && now.identity == was.identity
            && (was.revokedAt.Some? ==> now.revokedAt == was.revokedAt && now.sessionId.None?)
  {
    RunEndures(s, r, steps, n);
    InvariantHolds(s, r, steps);
    assert RevokedHasNoSession(Run(s, r, steps).nodes[id]);
  }

  // ----- The kill switch ---------------------------------------------------------------------------------

  /** Freezing and thawing only ever move this forward. */
  function Phase(c: Control): nat {
    2 * c.freezeEpoch + (if c.frozen then 0 else 1)
  }

  lemma {:induction false} PhaseAdvances(s: Settings, r: Recipe, steps: seq<Step>, n: nat)
    requires n <= |steps|
    ensures Phase(Run(s, r, steps[..n]).control) <= Phase(Run(s, r, steps).control)
    decreases |steps|
  {
    if n == |steps| {
      assert steps[..n] == steps;
    } else {
      var last := |steps| - 1;
      assert steps[..last][..n] == steps[..n];
      PhaseAdvances(s, r, steps[..last], n);
      StepAdvancesPhase(s, r, Run(s, r, steps[..last]), steps[last]);
    }
  }

  lemma StepAdvancesPhase(s: Settings, r: Recipe, m: Mesh, step: Step)
    ensures Phase(m.control) <= Phase(Apply(s, r, m, step).control)
    ensures step.Unfreeze? && Thaws(m, step.expected) ==>
              Phase(m.control) == 2 * step.expected && Phase(Apply(s, r, m, step).control) == 2 * step.expected + 1
  {
    hide LinkAll, Mintable, SweepDrafts, NodeRestartDrafts, JobRestartDrafts;
  }

  /** Each freeze epoch is thawed at most once: a later thaw names a later epoch. */
  lemma EachFreezeThawedOnce(s: Settings, r: Recipe, steps: seq<Step>, i: nat, j: nat)
    requires i < j < |steps| && steps[i].Unfreeze? && steps[j].Unfreeze?
    requires Thaws(Run(s, r, steps[..i]), steps[i].expected) && Thaws(Run(s, r, steps[..j]), steps[j].expected)
    ensures steps[i].expected < steps[j].expected
  {
    StepAdvancesPhase(s, r, Run(s, r, steps[..i]), steps[i]);
    StepAdvancesPhase(s, r, Run(s, r, steps[..j]), steps[j]);
    assert steps[..j][..i + 1] == steps[..i + 1] && steps[..i + 1][..i] == steps[..i];
    PhaseAdvances(s, r, steps[..j], i + 1);
  }

  // ----- Restart recovery ------------------------------------------------------------------------------------

  lemma {:induction false} NoNodeDrafts(nodes: Nodes, order: seq<string>)
    requires forall id :: id in nodes ==> nodes[id].sessionId.None?
    ensures NodeRestartDrafts(nodes, order) == []
  {
    if order != [] { NoNodeDrafts(nodes, order[..|order| - 1]); }
  }

  lemma {:induction false} NoJobDrafts(jobs: map<string, Job>, order: seq<string>)
    requires forall id :: id in jobs ==> jobs[id].status.Terminal()
    ensures JobRestartDrafts(jobs, order) == []
  {
    if order != [] { NoJobDrafts(jobs, order[..|order| - 1]); }
  }

  lemma RecoveredNodes(nodes: Nodes)
    ensures var after := nodes + map id | id in nodes && nodes[id].sessionId.Some? :: Disconnected(nodes[id]);
            && after.Keys == nodes.Keys
            && forall id :: id in nodes ==>
                 after[id].sessionId.None? && after[id].lastHeartbeatAt == nodes[id].lastHeartbeatAt
  {
  }

  lemma RecoveredJobs(jobs: map<string, Job>, at: int)
    ensures var after := jobs + map id | id in jobs && !jobs[id].status.Terminal() ::
                                  jobs[id].(status := TimedOut, updatedAt := at, reason := RESTART_REASON);
            after.Keys == jobs.Keys && forall id :: id in jobs ==> after[id].status.Terminal()
  {
  }

  lemma NothingToRecover(m: Mesh, nodeOrder: seq<string>, jobOrder: seq<string>, at: int)
    requires forall id :: id in m.nodes ==> m.nodes[id].sessionId.None?
    requires forall id :: id in m.jobs ==> m.jobs[id].status.Terminal()
    ensures RecoverWrites(m, nodeOrder, jobOrder, at) == NO_WRITES
  {
    NoNodeDrafts(m.nodes, nodeOrder);
    NoJobDrafts(m.jobs, jobOrder);
  }

  /** Recovery leaves no session and no open job, keeps every heartbeat, and a
      second recovery writes nothing at all. */
  lemma RecoveryIsIdempotent(
    s: Settings, r: Recipe, m: Mesh, nodeOrder: seq<string>, jobOrder: seq<string>, at: int,
    nodeOrder': seq<string>, jobOrder': seq<string>, at': int)
    ensures var after := Apply(s, r, m, Recover(nodeOrder, jobOrder, at));
            && after.nodes.Keys == m.nodes.Keys && after.jobs.Keys == m.jobs.Keys
            && (forall id :: id in m.nodes ==>
                  after.nodes[id].sessionId.None? && after.nodes[id].lastHeartbeatAt == m.nodes[id].lastHeartbeatAt)
            && (forall id :: id in m.jobs ==> after.jobs[id].status.Terminal())
            && RecoverWrites(after, nodeOrder', jobOrder', at') == NO_WRITES
  {
    var after := Apply(s, r, m, Recover(nodeOrder, jobOrder, at));
    RecoveredNodes(m.nodes);
    RecoveredJobs(m.jobs, at);
    hide LinkAll, NodeRestartDrafts, JobRestartDrafts;
    NothingToRecover(after, nodeOrder', jobOrder', at');
  }
}
