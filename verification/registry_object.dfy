/** The registry as an object over its store: every operation runs one
    transaction and leaves the state the corresponding step describes. */
module RegistryObject {
  import opened MeshStore
  import opened Outcomes
  import opened Registry
  import opened RegistryRuns
  import RegistryDecisions
  import Scopes

  /** An order in which a dictionary's values may be iterated. */
  ghost predicate Listing(order: seq<string>, keys: set<string>) {
    && (forall i :: 0 <= i < |order| ==> order[i] in keys)
    && (forall k :: k in keys ==> k in order)
    && (forall i, j :: 0 <= i < j < |order| ==> order[i] != order[j])
  }

  // ----- What the sweeping loops have written so far ------------------------------------------

  function ClearedOf(nodes: Nodes, ids: seq<string>): Nodes {
    map id | id in ids && id in nodes :: Disconnected(nodes[id])
  }

  function EndedOf(jobs: map<string, Job>, ids: seq<string>, now: int): map<string, Job> {
    map id | id in ids && id in jobs :: jobs[id].(status := TimedOut, updatedAt := now, reason := RESTART_REASON)
  }

  lemma ClearedNone(nodes: Nodes)
    ensures ClearedOf(nodes, []) == map[]
  {
  }

  lemma ClearedMore(nodes: Nodes, ids: seq<string>, id: string)
    requires id in nodes
    ensures ClearedOf(nodes, ids + [id]) == ClearedOf(nodes, ids)[id := Disconnected(nodes[id])]
  {
  }

  lemma EndedNone(jobs: map<string, Job>, now: int)
    ensures EndedOf(jobs, [], now) == map[]
  {
  }

  lemma EndedMore(jobs: map<string, Job>, ids: seq<string>, id: string, now: int)
    requires id in jobs
    ensures EndedOf(jobs, ids + [id], now)
         == EndedOf(jobs, ids, now)[id := jobs[id].(status := TimedOut, updatedAt := now, reason := RESTART_REASON)]
  {
  }

  function SilentIds(s: Settings, nodes: Nodes, order: seq<string>, now: int): seq<string> {
    if order == [] then []
    else
      var id := order[|order| - 1];
      SilentIds(s, nodes, order[..|order| - 1], now) + (if id in nodes && Silent(s, nodes[id], now) then [id] else [])
  }

  function ConnectedIds(nodes: Nodes, order: seq<string>): seq<string> {
    if order == [] then []
    else
      var id := order[|order| - 1];
      ConnectedIds(nodes, order[..|order| - 1]) + (if id in nodes && nodes[id].sessionId.Some? then [id] else [])
  }

  function OpenIds(jobs: map<string, Job>, order: seq<string>): seq<string> {
    if order == [] then []
    else
      var id := order[|order| - 1];
      OpenIds(jobs, order[..|order| - 1]) + (if id in jobs && !jobs[id].status.Terminal() then [id] else [])
  }

  lemma {:induction false} SilentIdsAre(s: Settings, nodes: Nodes, order: seq<string>, now: int)
    ensures forall id :: id in SilentIds(s, nodes, order, now) <==> id in order && id in nodes && Silent(s, nodes[id], now)
  {
    if order != [] {
      hide Silent;
      SilentIdsAre(s, nodes, order[..|order| - 1], now);
      assert order == order[..|order| - 1] + [order[|order| - 1]];
    }
  }

  lemma {:induction false} ConnectedIdsAre(nodes: Nodes, order: seq<string>)
    ensures forall id :: id in ConnectedIds(nodes, order) <==> id in order && id in nodes && nodes[id].sessionId.Some?
  {
    if order != [] {
      ConnectedIdsAre(nodes, order[..|order| - 1]);
      assert order == order[..|order| - 1] + [order[|order| - 1]];
    }
  }

  lemma {:induction false} OpenIdsAre(jobs: map<string, Job>, order: seq<string>)
    ensures forall id :: id in OpenIds(jobs, order) <==> id in order && id in jobs && !jobs[id].status.Terminal()
  {
    if order != [] {
      OpenIdsAre(jobs, order[..|order| - 1]);
      assert order == order[..|order| - 1] + [order[|order| - 1]];
    }
  }

  lemma SweptAll(s: Settings, nodes: Nodes, order: seq<string>, ids: seq<string>, now: int)
    requires Listing(order, nodes.Keys)
    requires forall id :: id in ids <==> id in order && id in nodes && Silent(s, nodes[id], now)
    ensures ClearedOf(nodes, ids) == map id | id in nodes && Silent(s, nodes[id], now) :: Disconnected(nodes[id])
  {
  }

  lemma DisconnectedAll(nodes: Nodes, order: seq<string>, ids: seq<string>)
    requires Listing(order, nodes.Keys)
    requires forall id :: id in ids <==> id in order && id in nodes && nodes[id].sessionId.Some?
    ensures ClearedOf(nodes, ids) == map id | id in nodes && nodes[id].sessionId.Some? :: Disconnected(nodes[id])
  {
  }

  lemma EndedAll(jobs: map<string, Job>, order: seq<string>, ids: seq<string>, now: int)
    requires Listing(order, jobs.Keys)
    requires forall id :: id in ids <==> id in order && id in jobs && !jobs[id].status.Terminal()
    ensures EndedOf(jobs, ids, now)
         == map id | id in jobs && !jobs[id].status.Terminal() ::
              jobs[id].(status := TimedOut, updatedAt := now, reason := RESTART_REASON)
  {
  }

  class NodeRegistry {
    const store: Store
    const settings: Settings

    ghost predicate Valid()
      reads this, store
    {
      Invariant(settings, store.recipe, store.State())
    }

    constructor (recipe: Recipe, settings: Settings)
      ensures Valid() && fresh(store) && store.State() == EMPTY_MESH && this.settings == settings
    {
      store := new Store(recipe);
      this.settings := settings;
    }

    /** The state one step leads to. */
    ghost function After(step: Step): Mesh
      reads this, store
    {
      Apply(settings, store.recipe, store.State(), step)
    }

    method IssueEnrollmentToken(g: Grant, tokenId: string, secretHash: string, now: int) returns (issued: Option<Token>)
      requires Valid() && tokenId !in store.tokens
      modifies store
      ensures Valid() && store.State() == old(After(Issue(g, tokenId, secretHash, now)))
      ensures issued.Some? <==>
        RegistryDecisions.Grantable(settings, old(store.State()), Issue(g, tokenId, secretHash, now))
      ensures issued.Some? ==> tokenId in store.tokens && store.tokens[tokenId] == issued.value
    {
      StepKeepsInvariant(settings, store.recipe, store.State(), Issue(g, tokenId, secretHash, now));
      hide Invariant, LinkAll;
      issued := None;
      if !Mintable(settings, g) { return; }
      Parts();
      ghost var expected := IssueWrites(settings, store.State(), g, tokenId, secretHash, now);
      var encoded := Scopes.EncodeScopes(settings.rules, g.scopes, g.platform);
      var record := Minted(settings, g, tokenId, secretHash, now);
      assert encoded == Some(record.scopes);
      var tx := new Transaction(store);
      var control := tx.GetControl();
      if control.frozen {
        tx.AppendAudit(Draft(g.issuedBy, EnrollmentIssued, Deny, "dispatch-frozen", None, None,
                             map["node_name" := Text(g.nodeName)]));
        assert tx.Writes() == expected.value;
      } else {
        issued := Some(record);
        tx.PutToken(record);
        tx.AppendAudit(Draft(g.issuedBy, EnrollmentIssued, Allow, "", None, None,
                             map["token_id" := Text(tokenId), "node_name" := Text(record.nodeName),
                                 "granted_capabilities" := Names(record.granted),
                                 "expires_at" := Number(record.expiresAt)]));
        assert tx.Writes() == expected.value;
      }
      tx.Finish();
    }

    lemma Parts()
      requires Valid()
      ensures store.Valid() && KeysMatch(store.tokens, store.nodes) && TokensSpent(store.tokens, store.nodes)
      ensures JobsKeyed(store.jobs)
    {
    }

    method RedeemEnrollmentToken(
      tokenId: string, secretHash: string, d: Description, publicKey: string, nodeId: string, now: int)
      returns (r: Result<Node, string>)
      requires Valid() && nodeId !in store.nodes
      modifies store
      ensures Valid() && store.State() == old(After(Redeem(tokenId, secretHash, d, publicKey, nodeId, now)))
      ensures r.Ok? <==>
        || RegistryDecisions.Entitled(old(store.State()), Redeem(tokenId, secretHash, d, publicKey, nodeId, now))
        || RegistryDecisions.AlreadyEnrolled(old(store.State()), tokenId, secretHash, publicKey)
      ensures r.Ok? ==> r.value.identity.publicKey == publicKey && r.value.identity.tokenId == tokenId
                        && r.value.identity.nodeId in store.nodes && store.nodes[r.value.identity.nodeId] == r.value
    {
      RedeemableWhenEntitled(tokenId, secretHash, d, publicKey, nodeId, now);
      hide Invariant, LinkAll, Verifies, TokensSpent, EnrollmentFailure, Rejection, RegistryDecisions.Entitled;
      Parts();
      StepKeepsInvariant(
        settings, store.recipe, store.State(), Redeem(tokenId, secretHash, d, publicKey, nodeId, now));
      ghost var expected := RedeemWrites(settings, store.State(), tokenId, secretHash, d, publicKey, nodeId, now);
      var tx := new Transaction(store);
      var record := tx.GetToken(tokenId);
      if record.None? || record.value.secretHash != secretHash {
        tx.AppendAudit(Rejection("enrollment-unknown", d.nodeName));
        assert tx.Writes() == expected;
        tx.Finish();
        return Err("enrollment-unknown");
      }
      var t := record.value;
      var failure := EnrollmentFailure(t, d, now);
      if failure.Some? {
        if t.consumedAt.Some? && t.consumedBy.Some? {
          var existing := tx.GetNode(t.consumedBy.value);
          if existing.Some? && existing.value.identity.publicKey == publicKey {
            SpentOnce(store.tokens, store.nodes, tokenId);
            assert tx.Writes() == expected;
            FinishNothing(tx);
            return Ok(existing.value);
          }
        }
        tx.AppendAudit(Rejection(failure.value, d.nodeName));
        assert tx.Writes() == expected;
        tx.Finish();
        return Err(failure.value);
      }
      var node := WriteEnrollment(tx, t, d, publicKey, nodeId, now);
      assert tx.Writes() == expected;
      tx.Finish();
      return Ok(node);
    }

    lemma RedeemableWhenEntitled(
      tokenId: string, secretHash: string, d: Description, publicKey: string, nodeId: string, now: int)
      requires Valid()
      ensures RegistryDecisions.Entitled(store.State(), Redeem(tokenId, secretHash, d, publicKey, nodeId, now)) <==>
        && tokenId in store.tokens && store.tokens[tokenId].secretHash == secretHash
        && EnrollmentFailure(store.tokens[tokenId], d, now) == None
    {
      hide Invariant;
    }

    method WriteEnrollment(tx: Transaction, t: Token, d: Description, publicKey: string, nodeId: string, now: int)
      returns (node: Node)
      requires tx.store == store && tx.Writes() == NO_WRITES
      modifies tx
      ensures node == Enrolled(settings, t, d, publicKey, nodeId, now)
      ensures tx.Writes() == EnrollmentWrites(t, node, d, now)
    {
      node := Enrolled(settings, t, d, publicKey, nodeId, now);
      tx.PutNode(node);
      tx.PutToken(t.(consumedAt := Some(now), consumedBy := Some(nodeId)));
      tx.AppendAudit(RedemptionDraft(t, node, d));
    }

    lemma SpentOnce(tokens: Tokens, nodes: Nodes, tokenId: string)
      requires TokensSpent(tokens, nodes) && tokenId in tokens && KeysMatch(tokens, nodes)
      ensures tokens[tokenId].consumedBy.Some? ==>
                tokens[tokenId].consumedBy.value in nodes
                && nodes[tokens[tokenId].consumedBy.value].identity.tokenId == tokenId
                && nodes[tokens[tokenId].consumedBy.value].identity.nodeId == tokens[tokenId].consumedBy.value
    {
    }

    method RevokeEnrollmentToken(tokenId: string, actor: string, reason: string, now: int) returns (found: bool)
      requires Valid()
      modifies store
      ensures Valid() && store.State() == old(After(RevokeToken(tokenId, actor, reason, now)))
      ensures found == (tokenId in old(store.tokens))
    {
      hide Invariant, LinkAll, Verifies, TokensSpent;
      Parts();
      StepKeepsInvariant(settings, store.recipe, store.State(), RevokeToken(tokenId, actor, reason, now));
      ghost var expected := RevokeTokenWrites(store.State(), tokenId, actor, reason, now);
      var tx := new Transaction(store);
      var record := tx.GetToken(tokenId);
      found := record.Some?;
      if found && record.value.revokedAt.None? {
        tx.PutToken(record.value.(revokedAt := Some(now)));
        tx.AppendAudit(Draft(actor, EnrollmentGrantRevoked, Allow, reason, None, None, map["token_id" := Text(tokenId)]));
      }
      assert tx.Writes() == expected;
      tx.Finish();
    }

    method AttachSession(
      nodeId: string, sessionId: string, declared: set<string>, agentVersion: string, architecture: string, now: int)
      returns (r: Option<Node>)
      requires Valid()
      modifies store
      ensures Valid()
      ensures store.State() == old(After(Attach(nodeId, sessionId, declared, agentVersion, architecture, now)))
      ensures r.Some? <==> nodeId in old(store.nodes) && old(store.nodes)[nodeId].revokedAt.None?
      ensures r.Some? ==> nodeId in store.nodes && store.nodes[nodeId] == r.value && r.value.sessionId == Some(sessionId)
    {
      ghost var step := Attach(nodeId, sessionId, declared, agentVersion, architecture, now);
      hide Invariant, LinkAll, Verifies, TokensSpent;
      Parts();
      StepKeepsInvariant(settings, store.recipe, store.State(), step);
      ghost var expected := AttachWrites(settings, store.State(), nodeId, sessionId, declared, agentVersion, architecture, now);
      var tx := new Transaction(store);
      var record := tx.GetNode(nodeId);
      if record.None? || record.value.revokedAt.Some? { return None; }
      var n := record.value;
      var attached := n.(sessionId := Some(sessionId), sessionStartedAt := Some(now), lastHeartbeatAt := Some(now),
                         agentVersion := agentVersion, architecture := architecture, declared := declared * settings.known);
      tx.PutNode(attached);
      tx.AppendAudit(Draft(n.identity.nodeName, SessionOpened, Allow, "", Some(nodeId), None,
                           map["session_id" := Text(sessionId), "declared_capabilities" := Names(attached.declared),
                               "effective_capabilities" := Names(Effective(settings, attached))]));
      assert tx.Writes() == expected.value;
      tx.Finish();
      return Some(attached);
    }

    method DetachSession(nodeId: string, sessionId: string, reason: string)
      requires Valid()
      modifies store
      ensures Valid() && store.State() == old(After(Detach(nodeId, sessionId, reason)))
    {
      hide Invariant, LinkAll, Verifies, TokensSpent;
      Parts();
      StepKeepsInvariant(settings, store.recipe, store.State(), Detach(nodeId, sessionId, reason));
      ghost var expected := DetachWrites(store.State(), nodeId, sessionId, reason);
      var tx := new Transaction(store);
      var record := tx.GetNode(nodeId);
      if record.Some? && record.value.sessionId == Some(sessionId) {
        tx.PutNode(Disconnected(record.value));
        tx.AppendAudit(Draft(record.value.identity.nodeName, SessionClosed, Observe, reason, Some(nodeId), None,
                             map["session_id" := Text(sessionId)]));
      }
      assert tx.Writes() == expected;
      tx.Finish();
    }

    method RecordHeartbeat(nodeId: string, sessionId: string, health: Health) returns (current: bool)
      requires Valid()
      modifies store
      ensures Valid() && store.State() == old(After(Heartbeat(nodeId, sessionId, health)))
      ensures current <==> nodeId in old(store.nodes) && old(store.nodes)[nodeId].sessionId == Some(sessionId)
    {
      hide Invariant, LinkAll, Verifies, TokensSpent;
      Parts();
      StepKeepsInvariant(settings, store.recipe, store.State(), Heartbeat(nodeId, sessionId, health));
      ghost var expected := HeartbeatWrites(store.State(), nodeId, sessionId, health);
      var tx := new Transaction(store);
      var record := tx.GetNode(nodeId);
      if record.None? || record.value.sessionId != Some(sessionId) { return false; }
      tx.PutNode(record.value.(lastHeartbeatAt := Some(health.reportedAt), lastHealth := Some(health)));
      assert tx.Writes() == expected.value;
      tx.Finish();
      return true;
    }

    method ChangeLifecycle(nodeId: string, change: Lifecycle, actor: string, reason: string, now: int)
      returns (r: Option<Node>)
      requires Valid()
      modifies store
      ensures Valid() && store.State() == old(After(Change(nodeId, change, actor, reason, now)))
      ensures r.Some? <==> nodeId in old(store.nodes) && (change.Restoring? ==> old(store.nodes)[nodeId].revokedAt == None)
      ensures r.Some? ==> nodeId in store.nodes && store.nodes[nodeId] == r.value
      ensures r.Some? && change.Revoking? ==> r.value.revokedAt.Some? && r.value.sessionId.None?
    {
      hide Invariant, LinkAll, Verifies, Changed, LifecycleAction, KeysMatch, TokensSpent;
      Parts();
      StepKeepsInvariant(settings, store.recipe, store.State(), Change(nodeId, change, actor, reason, now));
      ghost var expected := LifecycleWrites(store.State(), nodeId, change, actor, reason, now);
      var tx := new Transaction(store);
      var record := tx.GetNode(nodeId);
      if record.None? || (change.Restoring? && record.value.revokedAt.Some?) { return None; }
      var updated := Changed(record.value, change, reason, now);
      ChangedKeepsIdentity(store.tokens, store.nodes, nodeId, change, reason, now);
      tx.PutNode(updated);
      tx.AppendAudit(Draft(actor, LifecycleAction(change), Allow, reason, Some(nodeId), None, map[]));
      assert tx.Writes() == expected.value;
      tx.Finish();
      return Some(updated);
    }

    lemma ChangedKeepsIdentity(
      tokens: Tokens, nodes: Nodes, nodeId: string, change: Lifecycle, reason: string, now: int)
      requires KeysMatch(tokens, nodes) && nodeId in nodes
      ensures var updated := Changed(nodes[nodeId], change, reason, now);
              && updated.identity.nodeId == nodeId
              && (change.Revoking? ==> updated.revokedAt.Some? && updated.sessionId.None?)
    {
    }

    method FreezeDispatch(actor: string, reason: string, now: int) returns (c: Control)
      requires Valid()
      modifies store
      ensures Valid() && store.State() == old(After(Freeze(actor, reason, now)))
      ensures c == store.control && c.frozen
    {
      hide Invariant, LinkAll, Verifies, TokensSpent;
      Parts();
      StepKeepsInvariant(settings, store.recipe, store.State(), Freeze(actor, reason, now));
      ghost var expected := FreezeWrites(store.State(), actor, reason, now);
      var tx := new Transaction(store);
      c := tx.GetControl();
      if !c.frozen {
        c := Control(true, c.freezeEpoch + 1, Some(now), reason);
        tx.PutControl(c);
        tx.AppendAudit(Draft(actor, DispatchFrozen, Allow, reason, None, None,
                             map["freeze_epoch" := Number(c.freezeEpoch)]));
      }
      assert tx.Writes() == expected;
      tx.Finish();
    }

    method UnfreezeDispatch(actor: string, expectedEpoch: int, reason: string, now: int) returns (thawed: bool)
      requires Valid()
      modifies store
      ensures Valid() && store.State() == old(After(Unfreeze(actor, expectedEpoch, reason, now)))
      ensures thawed <==> old(store.control).frozen && old(store.control).freezeEpoch == expectedEpoch
      ensures thawed ==> !store.control.frozen && store.control.freezeEpoch == expectedEpoch
      ensures !thawed ==> store.control == old(store.control)
    {
      StepKeepsInvariant(settings, store.recipe, store.State(), Unfreeze(actor, expectedEpoch, reason, now));
      assert store.Valid();
      ghost var expected := UnfreezeWrites(store.State(), actor, expectedEpoch, reason, now);
      assert After(Unfreeze(actor, expectedEpoch, reason, now)) == Commit(store.recipe, store.State(), expected);
      hide Invariant, LinkAll, Verifies, Apply;
      var tx := new Transaction(store);
      var c := tx.GetControl();
      thawed := false;
      if c.frozen && expectedEpoch != c.freezeEpoch {
        tx.AppendAudit(Draft(actor, DispatchUnfrozen, Deny, "freeze-epoch-mismatch", None, None,
                             map["expected" := Number(expectedEpoch), "actual" := Number(c.freezeEpoch)]));
      } else if c.frozen {
        thawed := true;
        tx.PutControl(Control(false, c.freezeEpoch, Some(now), reason));
        tx.AppendAudit(Draft(actor, DispatchUnfrozen, Allow, reason, None, None,
                             map["freeze_epoch" := Number(c.freezeEpoch)]));
      }
      assert tx.Writes() == expected;
      tx.Finish();
    }

    /** Detaching silent sessions, node by node in listing order. */
    method SweepExpiredHeartbeats(order: seq<string>, now: int) returns (expired: seq<string>)
      requires Valid() && Listing(order, store.nodes.Keys)
      modifies store
      ensures Valid() && store.State() == old(After(Sweep(order, now)))
      ensures forall id :: id in expired <==>
        id in old(store.nodes) && RegistryDecisions.SilentFor(old(store.nodes)[id], now, settings.expirySeconds)
    {
      hide Invariant, LinkAll, Verifies, TokensSpent;
      Parts();
      StepKeepsInvariant(settings, store.recipe, store.State(), Sweep(order, now));
      ghost var expected := SweepWrites(settings, store.State(), order, now);
      var tx := new Transaction(store);
      expired := SweepInto(tx, order, now);
      assert tx.Writes() == expected;
      tx.Finish();
    }

    method SweepInto(tx: Transaction, order: seq<string>, now: int) returns (expired: seq<string>)
      requires tx.store == store && tx.Writes() == NO_WRITES
      requires KeysMatch(store.tokens, store.nodes) && Listing(order, store.nodes.Keys)
      modifies tx
      ensures tx.Writes() == SweepWrites(settings, store.State(), order, now)
      ensures forall id :: id in expired <==> id in store.nodes && Silent(settings, store.nodes[id], now)
    {
      hide Silent, ClearedOf, ExpiryDraft;
      expired := [];
      ClearedNone(store.nodes);
      for i := 0 to |order|
        invariant expired == SilentIds(settings, store.nodes, order[..i], now)
        invariant tx.Writes() == NO_WRITES.(nodes := ClearedOf(store.nodes, expired),
                                            drafts := SweepDrafts(settings, store.nodes, order[..i], now))
      {
        var n := store.nodes[order[i]];
        assert order[..i + 1][..i] == order[..i];
        if Silent(settings, n, now) {
          SilentHasSession(n, now);
          ClearedMore(store.nodes, expired, order[i]);
          tx.PutNode(Disconnected(n));
          tx.AppendAudit(ExpiryDraft(n));
          expired := expired + [order[i]];
        }
      }
      assert order[..|order|] == order;
      SilentIdsAre(settings, store.nodes, order, now);
      SweptAll(settings, store.nodes, order, expired, now);
    }

    lemma SilentHasSession(n: Node, now: int)
      requires Silent(settings, n, now)
      ensures n.sessionId.Some?
    {
    }

    /** Clearing every session and timing out every open job after a restart. */
    method RecoverAfterRestart(nodeOrder: seq<string>, jobOrder: seq<string>, now: int)
      returns (cleared: seq<string>, reconciled: seq<string>)
      requires Valid() && Listing(nodeOrder, store.nodes.Keys) && Listing(jobOrder, store.jobs.Keys)
      modifies store
      ensures Valid() && store.State() == old(After(Recover(nodeOrder, jobOrder, now)))
      ensures forall id :: id in cleared <==> id in old(store.nodes) && old(store.nodes)[id].sessionId.Some?
      ensures forall id :: id in reconciled <==> id in old(store.jobs) && !old(store.jobs)[id].status.Terminal()
    {
      hide Invariant, LinkAll, Verifies, TokensSpent;
      Parts();
      StepKeepsInvariant(settings, store.recipe, store.State(), Recover(nodeOrder, jobOrder, now));
      ghost var expected := RecoverWrites(store.State(), nodeOrder, jobOrder, now);
      var tx := new Transaction(store);
      cleared := ClearSessions(tx, nodeOrder);
      reconciled := ReconcileJobs(tx, jobOrder, now);
      assert tx.Writes() == expected;
      tx.Finish();
    }

    method ClearSessions(tx: Transaction, order: seq<string>) returns (cleared: seq<string>)
      requires tx.store == store && tx.Writes() == NO_WRITES
      requires KeysMatch(store.tokens, store.nodes) && Listing(order, store.nodes.Keys)
      modifies tx
      ensures tx.Writes() == NO_WRITES.(
                nodes := map id | id in store.nodes && store.nodes[id].sessionId.Some? :: Disconnected(store.nodes[id]),
                drafts := NodeRestartDrafts(store.nodes, order))
      ensures forall id :: id in cleared <==> id in store.nodes && store.nodes[id].sessionId.Some?
    {
      hide ClearedOf, RestartDraft;
      cleared := [];
      ClearedNone(store.nodes);
      for i := 0 to |order|
        invariant cleared == ConnectedIds(store.nodes, order[..i])
        invariant tx.Writes() == NO_WRITES.(nodes := ClearedOf(store.nodes, cleared),
                                            drafts := NodeRestartDrafts(store.nodes, order[..i]))
      {
        var n := store.nodes[order[i]];
        assert order[..i + 1][..i] == order[..i];
        if n.sessionId.Some? {
          ClearedMore(store.nodes, cleared, order[i]);
          tx.PutNode(Disconnected(n));
          tx.AppendAudit(RestartDraft(n));
          cleared := cleared + [order[i]];
        }
      }
      assert order[..|order|] == order;
      ConnectedIdsAre(store.nodes, order);
      DisconnectedAll(store.nodes, order, cleared);
    }

    method ReconcileJobs(tx: Transaction, order: seq<string>, now: int) returns (reconciled: seq<string>)
      requires tx.store == store && tx.jobs == map[] && Listing(order, store.jobs.Keys) && JobsKeyed(store.jobs)
      modifies tx
      ensures tx.Writes() == old(tx.Writes()).(
                jobs := map id | id in store.jobs && !store.jobs[id].status.Terminal() ::
                          store.jobs[id].(status := TimedOut, updatedAt := now, reason := RESTART_REASON),
                drafts := old(tx.drafts) + JobRestartDrafts(store.jobs, order))
      ensures forall id :: id in reconciled <==> id in store.jobs && !store.jobs[id].status.Terminal()
    {
      hide EndedOf, ReconcileDraft;
      reconciled := [];
      EndedNone(store.jobs, now);
      for i := 0 to |order|
        invariant reconciled == OpenIds(store.jobs, order[..i])
        invariant tx.Writes() == old(tx.Writes()).(jobs := EndedOf(store.jobs, reconciled, now),
                                                   drafts := old(tx.drafts) + JobRestartDrafts(store.jobs, order[..i]))
      {
        var j := store.jobs[order[i]];
        assert order[..i + 1][..i] == order[..i];
        if !j.status.Terminal() {
          EndedMore(store.jobs, reconciled, order[i], now);
          tx.PutJob(j.(status := TimedOut, updatedAt := now, reason := RESTART_REASON));
          tx.AppendAudit(ReconcileDraft(j));
          reconciled := reconciled + [order[i]];
        }
      }
      assert order[..|order|] == order;
      OpenIdsAre(store.jobs, order);
      EndedAll(store.jobs, order, reconciled, now);
    }

    /** Committing a transaction that wrote nothing. */
    method FinishNothing(tx: Transaction)
      requires tx.store == store && tx.Writes() == NO_WRITES && store.Valid()
      modifies store
      ensures store.State() == old(store.State()) == Commit(store.recipe, old(store.State()), NO_WRITES)
    {
      CommitKeepsVerifying(store.recipe, store.State(), NO_WRITES);
      tx.Finish();
    }
  }
}
