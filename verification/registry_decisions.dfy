/** What each registry transaction decides, said of the records themselves, and
    what that makes true of every node in every run. */
module RegistryDecisions {
  import opened MeshStore
  import opened Outcomes
  import opened Registry
  import opened RegistryRuns
  import PythonText
  import Scopes

  // ----- Enrollment -----------------------------------------------------------------------

  /** The presented token is good for this machine at this moment. */
  predicate Entitled(m: Mesh, step: Step) {
    && step.Redeem? && step.presentedId in m.tokens
    && var t := m.tokens[step.presentedId];
       && t.secretHash == step.secret && t.revokedAt == None && t.consumedAt == None && step.at < t.expiresAt
       && t.nodeName == PythonText.Strip(step.description.nodeName)
       && t.platform == step.description.platform && t.kind == step.description.kind
  }

  /** The token was already spent by the node that holds this key. */
  predicate AlreadyEnrolled(m: Mesh, tokenId: string, secretHash: string, publicKey: string) {
    && tokenId in m.tokens && m.tokens[tokenId].secretHash == secretHash && m.tokens[tokenId].consumedAt.Some?
    && exists id :: id in m.nodes && m.tokens[tokenId].consumedBy == Some(id) && m.nodes[id].identity.publicKey == publicKey
  }

  /** A redemption enrolls exactly when the token is known, unrevoked, unspent,
      unexpired and for that name, platform and kind; it then adds one node bound to
      the key and to the token's grant, and spends that token. */
  lemma RedeemsExactly(s: Settings, r: Recipe, m: Mesh, step: Step)
    requires step.Redeem? && FreshIds(m, step) && KeysMatch(m.tokens, m.nodes)
    ensures var after := Apply(s, r, m, step);
            if Entitled(m, step) then
              var t := m.tokens[step.presentedId];
              && step.newNodeId in after.nodes && after.nodes == m.nodes[step.newNodeId := after.nodes[step.newNodeId]]
              && after.tokens
                 == m.tokens[step.presentedId := t.(consumedAt := Some(step.at), consumedBy := Some(step.newNodeId))]
              && var n := after.nodes[step.newNodeId];
                 && n.identity.publicKey == step.publicKey && n.identity.tokenId == step.presentedId
                 && n.identity.granted == t.granted && n.identity.scopes == t.scopes && n.identity.nodeName == t.nodeName
                 && n.declared == step.description.declared * s.known
                 && n.sessionId == None && n.lastHeartbeatAt == None && n.quarantinedAt == None && n.revokedAt == None
            else after.nodes == m.nodes && after.tokens == m.tokens
    ensures Apply(s, r, m, step).jobs == m.jobs && Apply(s, r, m, step).control == m.control
  {
    EntitledWrites(s, m, step);
    hide LinkAll, RedeemWrites, Entitled;
    assert m.tokens + map[] == m.tokens && m.nodes + map[] == m.nodes && m.jobs + map[] == m.jobs;
  }

  lemma EntitledWrites(s: Settings, m: Mesh, step: Step)
    requires step.Redeem?
    ensures var b := RedeemWrites(s, m, step.presentedId, step.secret, step.description, step.publicKey, step.newNodeId, step.at);
            if Entitled(m, step) then
              var t := m.tokens[step.presentedId];
              b == EnrollmentWrites(t, Enrolled(s, t, step.description, step.publicKey, step.newNodeId, step.at),
                                    step.description, step.at)
            else b == NO_WRITES.(drafts := b.drafts)
    ensures Entitled(m, step) ==> step.presentedId in m.tokens
  {
    hide Rejection, RedemptionDraft, Replays;
  }

  /** A grant that may be minted: named, within the lifetime limits, of
      dispatchable capabilities only, each scoped where it must be. */
  predicate Grantable(s: Settings, m: Mesh, step: Step) {
    && step.Issue? && !m.control.frozen
    && (exists i :: 0 <= i < |step.grant.nodeName| && !PythonText.IsSpace(step.grant.nodeName[i]))
    && 60 <= step.grant.ttl <= 3600 && step.grant.granted <= s.dispatchable
    && (forall c :: c in step.grant.granted && Scopes.RequiresScope(c) ==> c in step.grant.scopes)
    && Scopes.AllBuild(s.rules, step.grant.scopes, step.grant.platform)
  }

  lemma IssuesExactly(s: Settings, r: Recipe, m: Mesh, step: Step)
    requires step.Issue? && FreshIds(m, step)
    ensures var after := Apply(s, r, m, step);
            if Grantable(s, m, step) then
              && step.newTokenId in after.tokens
              && after.tokens == m.tokens[step.newTokenId := after.tokens[step.newTokenId]]
              && IssuedAs(s, after.tokens[step.newTokenId], step)
            else after.tokens == m.tokens
    ensures Apply(s, r, m, step).nodes == m.nodes
  {
    hide LinkAll, Scopes.AllBuild;
    assert m.tokens + map[] == m.tokens && m.nodes + map[] == m.nodes;
  }

  /** The token carries the grant of the step that minted it. */
  predicate IssuedAs(s: Settings, t: Token, step: Step) {
    && step.Issue? && Scopes.AllBuild(s.rules, step.grant.scopes, step.grant.platform)
    && t.scopes == Scopes.Canonical(s.rules, step.grant.scopes, step.grant.platform)
    && t.tokenId == step.newTokenId && t.secretHash == step.secret
    && t.nodeName == PythonText.Strip(step.grant.nodeName) && t.kind == step.grant.kind
    && t.platform == step.grant.platform && t.granted == step.grant.granted && t.expiresAt == step.at + step.grant.ttl
  }

  /** Nothing but a redemption adds a node, and nothing ever changes its identity. */
  lemma OtherStepsAddNoNode(s: Settings, r: Recipe, m: Mesh, step: Step, id: string)
    requires !step.Redeem? && KeysMatch(m.tokens, m.nodes)
    ensures var after := Apply(s, r, m, step);
            id in after.nodes ==> id in m.nodes && after.nodes[id].identity == m.nodes[id].identity
  {
    StepKeepsNodes(s, r, m, step);
  }

  /** The step that enrolled a node, and what entitled it. */
  ghost predicate EnrolledAt(s: Settings, r: Recipe, steps: seq<Step>, n: int, i: Identity) {
    && 0 <= n < |steps| && Entitled(Run(s, r, steps[..n]), steps[n])
    && steps[n].newNodeId == i.nodeId && steps[n].publicKey == i.publicKey && steps[n].presentedId == i.tokenId
    && GrantedBy(i, Run(s, r, steps[..n]).tokens[i.tokenId])
  }

  lemma EnrolledAtStays(s: Settings, r: Recipe, steps: seq<Step>, step: Step, n: int, i: Identity)
    requires EnrolledAt(s, r, steps, n, i)
    ensures EnrolledAt(s, r, steps + [step], n, i)
  {
    assert (steps + [step])[..n] == steps[..n] && (steps + [step])[n] == steps[n];
  }

  /** In every run each node was added by a redemption of a token that was then
      unrevoked, unspent, unexpired and for that name, platform and kind, and
      still carries the key that was presented. */
  lemma {:induction false} EveryNodeWasEntitled(s: Settings, r: Recipe, steps: seq<Step>, id: string) returns (n: nat)
    requires MintsFreshIds(s, r, steps) && id in Run(s, r, steps).nodes
    ensures EnrolledAt(s, r, steps, n, Run(s, r, steps).nodes[id].identity)
  {
    InvariantHolds(s, r, steps);
    var last := |steps| - 1;
    var before, step := steps[..last], steps[last];
    var m := Run(s, r, before);
    MintsFreshPrefix(s, r, steps, last);
    InvariantHolds(s, r, before);
    assert steps == before + [step];
    hide EnrolledAt;
    if step.Redeem? {
      RedeemsExactly(s, r, m, step);
    } else {
      OtherStepsAddNoNode(s, r, m, step, id);
    }
    if id in m.nodes {
      n := EveryNodeWasEntitled(s, r, before, id);
      EnrolledAtStays(s, r, before, step, n, m.nodes[id].identity);
    } else {
      n := last;
      EnrolledNow(s, r, steps, id);
    }
  }

  lemma EnrolledNow(s: Settings, r: Recipe, steps: seq<Step>, id: string)
    requires MintsFreshIds(s, r, steps) && steps != []
    requires id in Run(s, r, steps).nodes && id !in Run(s, r, steps[..|steps| - 1]).nodes && steps[|steps| - 1].Redeem?
    ensures EnrolledAt(s, r, steps, |steps| - 1, Run(s, r, steps).nodes[id].identity)
  {
    var last := |steps| - 1;
    MintsFreshPrefix(s, r, steps, last);
    InvariantHolds(s, r, steps[..last]);
    InvariantHolds(s, r, steps);
    RedeemsExactly(s, r, Run(s, r, steps[..last]), steps[last]);
  }

  // ----- Tokens ------------------------------------------------------------------------------

  ghost predicate MintedAt(s: Settings, r: Recipe, steps: seq<Step>, n: int, t: Token) {
    0 <= n < |steps| && Grantable(s, Run(s, r, steps[..n]), steps[n]) && IssuedAs(s, t, steps[n])
  }

  lemma MintedAtStays(s: Settings, r: Recipe, steps: seq<Step>, step: Step, n: int, t: Token)
    requires MintedAt(s, r, steps, n, t)
    ensures MintedAt(s, r, steps + [step], n, t)
  {
    assert (steps + [step])[..n] == steps[..n] && (steps + [step])[n] == steps[n];
  }

  /** Only an issue adds a token; later steps change only whether it is spent or revoked. */
  lemma OtherStepsAddNoToken(s: Settings, r: Recipe, m: Mesh, step: Step, id: string)
    requires !step.Issue? && FreshIds(m, step) && KeysMatch(m.tokens, m.nodes)
    ensures var after := Apply(s, r, m, step);
            id in after.tokens ==>
              && id in m.tokens
              && var t := after.tokens[id];
                 t == m.tokens[id].(consumedAt := t.consumedAt, consumedBy := t.consumedBy, revokedAt := t.revokedAt)
  {
    if step.Redeem? {
      RedeemsExactly(s, r, m, step);
      hide Apply;
    } else {
      hide LinkAll, SweepDrafts, NodeRestartDrafts, JobRestartDrafts, Changed;
    }
  }

  /** In every run each token was minted while dispatch was open, from a grant
      within the limits, and still carries that grant. */
  lemma {:induction false} EveryTokenWasGrantable(s: Settings, r: Recipe, steps: seq<Step>, id: string) returns (n: nat)
    requires MintsFreshIds(s, r, steps) && id in Run(s, r, steps).tokens
    ensures MintedAt(s, r, steps, n, Run(s, r, steps).tokens[id])
  {
    var last := |steps| - 1;
    var before, step := steps[..last], steps[last];
    var m, after := Run(s, r, before), Run(s, r, steps);
    MintsFreshPrefix(s, r, steps, last);
    InvariantHolds(s, r, before);
    assert steps == before + [step];
    if step.Issue? {
      IssuesExactly(s, r, m, step);
    } else {
      OtherStepsAddNoToken(s, r, m, step, id);
    }
    if id in m.tokens {
      n := EveryTokenWasGrantable(s, r, before, id);
      hide Run, Apply, Grantable;
      assert IssuedAs(s, after.tokens[id], steps[n]);
      MintedAtStays(s, r, before, step, n, after.tokens[id]);
    } else {
      n := last;
    }
  }

  /** End to end: a node's capabilities are those an earlier, permitted issue
      granted, and it enrolled before that grant's lifetime was over. */
  lemma EveryNodeTracesToAGrant(s: Settings, r: Recipe, steps: seq<Step>, id: string) returns (issued: nat, redeemed: nat)
    requires MintsFreshIds(s, r, steps) && id in Run(s, r, steps).nodes
    ensures issued < redeemed < |steps| && steps[issued].Issue? && steps[redeemed].Redeem?
    ensures Grantable(s, Run(s, r, steps[..issued]), steps[issued])
    ensures steps[redeemed].presentedId == steps[issued].newTokenId && steps[redeemed].secret == steps[issued].secret
    ensures steps[redeemed].at < steps[issued].at + steps[issued].grant.ttl
    ensures var i := Run(s, r, steps).nodes[id].identity;
            && i.granted == steps[issued].grant.granted && i.granted <= s.dispatchable
            && i.publicKey == steps[redeemed].publicKey && i.platform == steps[issued].grant.platform
            && i.scopes == Scopes.Canonical(s.rules, steps[issued].grant.scopes, steps[issued].grant.platform)
  {
    redeemed := EveryNodeWasEntitled(s, r, steps, id);
    var before := steps[..redeemed];
    MintsFreshPrefix(s, r, steps, redeemed);
    InvariantHolds(s, r, before);
    issued := EveryTokenWasGrantable(s, r, before, steps[redeemed].presentedId);
    assert before[..issued] == steps[..issued] && before[issued] == steps[issued];
  }

  /** Revoking marks a known, unrevoked token with the moment, and nothing else. */
  lemma RevokesTokenExactly(s: Settings, r: Recipe, m: Mesh, step: Step)
    requires step.RevokeToken?
    ensures var after := Apply(s, r, m, step);
            && after.nodes == m.nodes && after.jobs == m.jobs && after.control == m.control
            && after.tokens ==
               if step.tokenId in m.tokens && m.tokens[step.tokenId].revokedAt == None
               then m.tokens[step.tokenId := m.tokens[step.tokenId].(revokedAt := Some(step.at))] else m.tokens
  {
    hide LinkAll;
    assert m.tokens + map[] == m.tokens && m.nodes + map[] == m.nodes && m.jobs + map[] == m.jobs;
  }

  lemma RevokedTokenStays(s: Settings, r: Recipe, m: Mesh, step: Step, id: string)
    requires Invariant(s, r, m) && FreshIds(m, step) && id in m.tokens && m.tokens[id].revokedAt.Some?
    ensures var after := Apply(s, r, m, step);
            id in after.tokens && after.tokens[id].revokedAt == m.tokens[id].revokedAt
  {
    assert KeysMatch(m.tokens, m.nodes);
    hide Apply, Invariant, KeysMatch, Entitled, Grantable, IssuedAs;
    if step.Redeem? {
      RedeemsExactly(s, r, m, step);
    } else if step.Issue? {
      IssuesExactly(s, r, m, step);
    } else if step.RevokeToken? {
      RevokesTokenExactly(s, r, m, step);
    } else {
      OtherStepsKeepTokens(s, r, m, step);
    }
  }

  lemma OtherStepsKeepTokens(s: Settings, r: Recipe, m: Mesh, step: Step)
    requires !step.Issue? && !step.Redeem? && !step.RevokeToken?
    ensures Apply(s, r, m, step).tokens == m.tokens
  {
    hide LinkAll, SweepDrafts, NodeRestartDrafts, JobRestartDrafts, Changed, Silent;
    assert m.tokens + map[] == m.tokens;
  }

  lemma {:induction false} RevokedTokenStaysThroughout(s: Settings, r: Recipe, steps: seq<Step>, k: nat, id: string)
    requires MintsFreshIds(s, r, steps) && k <= |steps|
    requires id in Run(s, r, steps[..k]).tokens && Run(s, r, steps[..k]).tokens[id].revokedAt.Some?
    ensures id in Run(s, r, steps).tokens && Run(s, r, steps).tokens[id].revokedAt.Some?
    decreases |steps|
  {
    hide Apply, Invariant, MintsFreshIds, FreshIds;
    if k == |steps| {
      assert steps[..k] == steps;
    } else {
      var last := |steps| - 1;
      assert steps[..last][..k] == steps[..k];
      MintsFreshPrefix(s, r, steps, last);
      RevokedTokenStaysThroughout(s, r, steps[..last], k, id);
      InvariantHolds(s, r, steps[..last]);
      RevokedTokenStays(s, r, Run(s, r, steps[..last]), steps[last], id);
    }
  }

  /** In every run a token revoked at some point enrolls no node from then on. */
  lemma RevokedTokenEnrollsNobody(s: Settings, r: Recipe, steps: seq<Step>, k: nat, j: nat)
    requires MintsFreshIds(s, r, steps) && k <= j < |steps| && steps[j].Redeem?
    requires steps[j].presentedId in Run(s, r, steps[..k]).tokens
    requires Run(s, r, steps[..k]).tokens[steps[j].presentedId].revokedAt.Some?
    ensures Run(s, r, steps[..j + 1]).nodes == Run(s, r, steps[..j]).nodes
  {
    hide Apply, Invariant, MintsFreshIds, FreshIds;
    var before, step := steps[..j], steps[j];
    assert before[..k] == steps[..k];
    MintsFreshPrefix(s, r, steps, j);
    InvariantHolds(s, r, before);
    RevokedTokenStaysThroughout(s, r, before, k, step.presentedId);
    RedeemingRevokedAddsNothing(s, r, Run(s, r, before), step);
    assert steps[..j + 1][..j] == before;
  }

  lemma RedeemingRevokedAddsNothing(s: Settings, r: Recipe, m: Mesh, step: Step)
    requires Invariant(s, r, m) && FreshIds(m, step) && step.Redeem?
    requires step.presentedId in m.tokens && m.tokens[step.presentedId].revokedAt.Some?
    ensures Apply(s, r, m, step).nodes == m.nodes
  {
    RedeemsExactly(s, r, m, step);
    hide Apply;
  }

  // ----- Sessions, heartbeats and lifecycle -------------------------------------------------------

  predicate SilentFor(n: Node, at: int, expiry: int) {
    match (n.sessionId, n.lastHeartbeatAt)
    case (Some(_), Some(beat)) => beat + expiry < at
    case _ => false
  }

  /** Steps that write no existing node. */
  predicate Quiet(step: Step) {
    || step.Issue? || step.RevokeToken? || step.RejectEnrollment? || step.Redeem? || step.UpsertJob?
    || step.Freeze? || step.Unfreeze? || step.RecordAudit?
  }

  lemma QuietStepsKeepNodes(s: Settings, r: Recipe, m: Mesh, step: Step, id: string)
    requires id in m.nodes && FreshIds(m, step) && Quiet(step)
    ensures id in Apply(s, r, m, step).nodes && Apply(s, r, m, step).nodes[id] == m.nodes[id]
  {
    hide LinkAll, Mintable, Minted, EnrollmentFailure, Replays, Rejection, RedemptionDraft;
  }

  lemma BulkStepsDisconnect(s: Settings, r: Recipe, m: Mesh, step: Step, id: string)
    requires id in m.nodes && (step.Sweep? || step.Recover?)
    ensures id in Apply(s, r, m, step).nodes
    ensures Apply(s, r, m, step).nodes[id] ==
      if (step.Sweep? && SilentFor(m.nodes[id], step.at, s.expirySeconds)) || (step.Recover? && m.nodes[id].sessionId.Some?)
      then m.nodes[id].(sessionId := None, sessionStartedAt := None) else m.nodes[id]
  {
    hide LinkAll, SweepDrafts, NodeRestartDrafts, JobRestartDrafts;
  }

  /** What any step makes of an enrolled node. */
  lemma NodeAfterStep(s: Settings, r: Recipe, m: Mesh, step: Step, id: string)
    requires id in m.nodes && FreshIds(m, step)
    ensures id in Apply(s, r, m, step).nodes
    ensures var n, after := m.nodes[id], Apply(s, r, m, step).nodes[id];
      if step.Attach? && step.nodeId == id && n.revokedAt == None then
        after == n.(sessionId := Some(step.sessionId), sessionStartedAt := Some(step.at), lastHeartbeatAt := Some(step.at),
                    agentVersion := step.agentVersion, architecture := step.architecture,
                    declared := step.declared * s.known)
      else if step.Heartbeat? && step.nodeId == id && n.sessionId == Some(step.sessionId) then
        after == n.(lastHeartbeatAt := Some(step.health.reportedAt), lastHealth := Some(step.health))
      else if || (step.Detach? && step.nodeId == id && n.sessionId == Some(step.sessionId))
              || (step.Sweep? && SilentFor(n, step.at, s.expirySeconds)) || (step.Recover? && n.sessionId.Some?) then
        after == n.(sessionId := None, sessionStartedAt := None)
      else if step.Change? && step.nodeId == id && !(step.change.Restoring? && n.revokedAt.Some?) then
        after == Changed(n, step.change, step.reason, step.at)
      else after == n
  {
    if Quiet(step) {
      QuietStepsKeepNodes(s, r, m, step, id);
      hide Apply;
    } else if step.Sweep? || step.Recover? {
      BulkStepsDisconnect(s, r, m, step, id);
      hide Apply;
    } else {
      hide LinkAll, Effective, LifecycleAction, Changed;
    }
  }

  /** Which session an enrolled node holds after any step. */
  lemma SessionsMoveExactly(s: Settings, r: Recipe, m: Mesh, step: Step, id: string)
    requires id in m.nodes && FreshIds(m, step)
    ensures var n := m.nodes[id];
            && id in Apply(s, r, m, step).nodes
            && Apply(s, r, m, step).nodes[id].sessionId ==
               if step.Attach? && step.nodeId == id && n.revokedAt == None then Some(step.sessionId)
               else if || (step.Detach? && step.nodeId == id && n.sessionId == Some(step.sessionId))
                       || (step.Sweep? && SilentFor(n, step.at, s.expirySeconds))
                       || step.Recover?
                       || (step.Change? && step.nodeId == id && step.change == Revoking) then None
               else n.sessionId
  {
    NodeAfterStep(s, r, m, step, id);
    hide Apply;
  }

  /** When a node was last heard from, and by which report. */
  lemma HeartbeatsMoveExactly(s: Settings, r: Recipe, m: Mesh, step: Step, id: string)
    requires id in m.nodes && FreshIds(m, step)
    ensures var n, after := m.nodes[id], Apply(s, r, m, step).nodes;
            && id in after
            && after[id].lastHeartbeatAt ==
               (if step.Attach? && step.nodeId == id && n.revokedAt == None then Some(step.at)
                else if step.Heartbeat? && step.nodeId == id && n.sessionId == Some(step.sessionId)
                  then Some(step.health.reportedAt)
                else n.lastHeartbeatAt)
            && after[id].declared ==
               (if step.Attach? && step.nodeId == id && n.revokedAt == None then step.declared * s.known else n.declared)
  {
    NodeAfterStep(s, r, m, step, id);
    hide Apply;
  }

  predicate Reports(step: Step, id: string, beat: int) {
    || (step.Attach? && step.nodeId == id && step.at == beat)
    || (step.Heartbeat? && step.nodeId == id && step.health.reportedAt == beat)
  }

  predicate Opens(step: Step, id: string, session: string) {
    step.Attach? && step.nodeId == id && step.sessionId == session
  }

  predicate Ends(step: Step, id: string, session: string) {
    || step.Recover?
    || (step.Detach? && step.nodeId == id && step.sessionId == session)
    || (step.Change? && step.nodeId == id && step.change == Revoking)
  }

  /** The heartbeat and session a node holds after one step are reported or opened
      by that step, or were there before and not ended by it. */
  lemma HeldOrGiven(s: Settings, r: Recipe, m: Mesh, step: Step, id: string)
    requires FreshIds(m, step) && KeysMatch(m.tokens, m.nodes) && id in Apply(s, r, m, step).nodes
    ensures var n := Apply(s, r, m, step).nodes[id];
            && (n.lastHeartbeatAt.Some? ==>
                  || Reports(step, id, n.lastHeartbeatAt.value)
                  || (id in m.nodes && m.nodes[id].lastHeartbeatAt == n.lastHeartbeatAt))
            && (n.sessionId.Some? ==>
                  || Opens(step, id, n.sessionId.value)
                  || (id in m.nodes && m.nodes[id].sessionId == n.sessionId && !Ends(step, id, n.sessionId.value)))
  {
    if id in m.nodes {
      SessionsMoveExactly(s, r, m, step, id);
      HeartbeatsMoveExactly(s, r, m, step, id);
    } else if step.Redeem? {
      RedeemsExactly(s, r, m, step);
    } else {
      OtherStepsAddNoNode(s, r, m, step, id);
    }
    hide Apply;
  }

  /** In every run a node's last heartbeat is one it reported, or the opening of a
      session of its own. */
  lemma {:induction false} EveryBeatWasReported(s: Settings, r: Recipe, steps: seq<Step>, id: string) returns (n: nat)
    requires MintsFreshIds(s, r, steps) && id in Run(s, r, steps).nodes
    requires Run(s, r, steps).nodes[id].lastHeartbeatAt.Some?
    ensures n < |steps| && Reports(steps[n], id, Run(s, r, steps).nodes[id].lastHeartbeatAt.value)
  {
    var last := |steps| - 1;
    MintsFreshPrefix(s, r, steps, last);
    InvariantHolds(s, r, steps[..last]);
    var m := Run(s, r, steps[..last]);
    HeldOrGiven(s, r, m, steps[last], id);
    hide Apply, Invariant, MintsFreshIds;
    n := last;
    if !Reports(steps[last], id, Run(s, r, steps).nodes[id].lastHeartbeatAt.value) {
      n := EveryBeatWasReported(s, r, steps[..last], id);
    }
  }

  /** In every run a node's session was opened by an attach of its own, and since
      then neither detached nor revoked nor dropped by a restart. */
  lemma {:induction false} EverySessionIsStillOpen(s: Settings, r: Recipe, steps: seq<Step>, id: string) returns (n: nat)
    requires MintsFreshIds(s, r, steps) && id in Run(s, r, steps).nodes && Run(s, r, steps).nodes[id].sessionId.Some?
    ensures var session := Run(s, r, steps).nodes[id].sessionId.value;
            && n < |steps| && Opens(steps[n], id, session)
            && forall k :: n < k < |steps| ==> !Ends(steps[k], id, session)
  {
    var last := |steps| - 1;
    MintsFreshPrefix(s, r, steps, last);
    InvariantHolds(s, r, steps[..last]);
    var m, session := Run(s, r, steps[..last]), Run(s, r, steps).nodes[id].sessionId.value;
    HeldOrGiven(s, r, m, steps[last], id);
    hide Apply, Invariant, MintsFreshIds;
    n := last;
    if !Opens(steps[last], id, session) {
      n := EverySessionIsStillOpen(s, r, steps[..last], id);
      forall k | n < k < |steps| ensures !Ends(steps[k], id, session) {
        if k < last { assert steps[..last][k] == steps[k]; }
      }
    }
  }

  /** When a node counts as quarantined and as revoked. */
  lemma LifecycleMovesExactly(s: Settings, r: Recipe, m: Mesh, step: Step, id: string)
    requires id in m.nodes && FreshIds(m, step)
    ensures var n, after := m.nodes[id], Apply(s, r, m, step).nodes;
            && id in after
            && after[id].quarantinedAt ==
               (if step.Change? && step.nodeId == id && step.change == Quarantining then Some(step.at)
                else if step.Change? && step.nodeId == id && step.change == Restoring && n.revokedAt == None then None
                else n.quarantinedAt)
            && after[id].revokedAt ==
               (if step.Change? && step.nodeId == id && step.change == Revoking && n.revokedAt == None then Some(step.at)
                else n.revokedAt)
  {
    NodeAfterStep(s, r, m, step, id);
    hide Apply;
  }

  /** The kill switch: who moves it, and only forward. */
  lemma ControlMovesExactly(s: Settings, r: Recipe, m: Mesh, step: Step)
    ensures var c, after := m.control, Apply(s, r, m, step).control;
            if step.Freeze? && !c.frozen then after == Control(true, c.freezeEpoch + 1, Some(step.at), step.reason)
            else if step.Unfreeze? && c.frozen && step.expected == c.freezeEpoch
              then after == Control(false, c.freezeEpoch, Some(step.at), step.reason)
            else after == c
  {
    hide LinkAll, SweepDrafts, NodeRestartDrafts, JobRestartDrafts, Mintable, EnrollmentFailure;
  }
}
