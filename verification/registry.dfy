/** The node registry: enrollment, sessions, heartbeats, restart recovery, node
    lifecycle and the dispatch kill switch, each as the writes of one serialised
    transaction. */
module Registry {
  import opened MeshStore
  import opened Outcomes
  import PythonText
  import Scopes

  const MIN_ENROLLMENT_TTL := 60
  const MAX_ENROLLMENT_TTL := 3600
  const RESTART_REASON := "control-plane-restart"

  /** What the registry is configured with: path rules, the capabilities that may
      be dispatched, every known capability, and the heartbeat expiry. */
  datatype Settings = Settings(
    rules: Scopes.WindowsRules, dispatchable: set<string>, known: set<string>, expirySeconds: int)

  datatype Grant = Grant(
    nodeName: string, kind: NodeKind, platform: Scopes.Platform, granted: set<string>, issuedBy: string, ttl: int,
    scopes: Scopes.Documents)

  datatype Description = Description(
    nodeName: string, kind: NodeKind, platform: Scopes.Platform, architecture: string, agentVersion: string,
    declared: set<string>, labels: seq<(string, string)>)

  // ----- Enrollment ------------------------------------------------------------------------

  /** What is checked before a token is minted. */
  predicate Mintable(s: Settings, g: Grant) {
    && !PythonText.Blank(g.nodeName) && MIN_ENROLLMENT_TTL <= g.ttl <= MAX_ENROLLMENT_TTL
    && g.granted <= s.dispatchable && Scopes.AllBuild(s.rules, g.scopes, g.platform)
    && forall c :: c in g.granted && Scopes.RequiresScope(c) ==> c in g.scopes
  }

  function Minted(s: Settings, g: Grant, tokenId: string, secretHash: string, now: int): Token
    requires Mintable(s, g)
  {
    Token(tokenId, secretHash, PythonText.Strip(g.nodeName), g.kind, g.platform, g.granted,
          Scopes.Canonical(s.rules, g.scopes, g.platform), now, now + g.ttl, g.issuedBy, None, None, None)
  }

  function IssueWrites(s: Settings, m: Mesh, g: Grant, tokenId: string, secretHash: string, now: int): Option<Buffer> {
    if !Mintable(s, g) then None
    else if m.control.frozen then
      Some(NO_WRITES.(drafts := [Draft(g.issuedBy, EnrollmentIssued, Deny, "dispatch-frozen", None, None,
                                       map["node_name" := Text(g.nodeName)])]))
    else
      var t := Minted(s, g, tokenId, secretHash, now);
      Some(NO_WRITES.(
        tokens := map[tokenId := t],
        drafts := [Draft(g.issuedBy, EnrollmentIssued, Allow, "", None, None,
                         map["token_id" := Text(tokenId), "node_name" := Text(t.nodeName),
                             "granted_capabilities" := Names(t.granted), "expires_at" := Number(t.expiresAt)])]))
  }

  function RevokeTokenWrites(m: Mesh, tokenId: string, actor: string, reason: string, now: int): Buffer {
    if tokenId !in m.tokens || m.tokens[tokenId].revokedAt.Some? then NO_WRITES
    else
      NO_WRITES.(
        tokens := map[tokenId := m.tokens[tokenId].(revokedAt := Some(now))],
        drafts := [Draft(actor, EnrollmentGrantRevoked, Allow, reason, None, None, map["token_id" := Text(tokenId)])])
  }

  function Rejection(reason: string, nodeName: string): Draft {
    Draft(if nodeName == "" then "unknown" else nodeName, EnrollmentRejected, Deny, reason, None, None,
          map["node_name" := Text(nodeName)])
  }

  function EnrollmentFailure(t: Token, d: Description, now: int): Option<string> {
    if t.revokedAt.Some? then Some("enrollment-revoked")
    else if t.consumedAt.Some? then Some("enrollment-consumed")
    else if now >= t.expiresAt then Some("enrollment-expired")
    else if PythonText.Strip(d.nodeName) != t.nodeName then Some("enrollment-scope-mismatch")
    else if d.platform != t.platform || d.kind != t.kind then Some("enrollment-scope-mismatch")
    else None
  }

  /** The same key presenting its own consumed token again is the same enrollment. */
  predicate Replays(m: Mesh, t: Token, publicKey: string) {
    && t.consumedAt.Some? && t.consumedBy.Some? && t.consumedBy.value in m.nodes
    && m.nodes[t.consumedBy.value].identity.publicKey == publicKey
  }

  function Enrolled(s: Settings, t: Token, d: Description, publicKey: string, nodeId: string, now: int): Node {
    Node(Identity(nodeId, t.nodeName, t.kind, t.platform, publicKey, t.granted, t.scopes, t.tokenId, now, d.labels),
         d.architecture, d.agentVersion, d.declared * s.known, None, None, None, None, None, "", None, "")
  }

  function PlatformText(p: Scopes.Platform): string {
    match p
    case Linux => "linux" case Windows => "windows" case MacOs => "macos" case Unknown => "unknown"
  }

  function RedemptionDraft(t: Token, node: Node, d: Description): Draft {
    Draft(d.nodeName, EnrollmentRedeemed, Allow, "", Some(node.identity.nodeId), None,
          map["token_id" := Text(t.tokenId), "platform" := Text(PlatformText(t.platform)),
              "granted_capabilities" := Names(t.granted), "declared_capabilities" := Names(node.declared)])
  }

  /** A node, its spent token and the event, all in one transaction. */
  function EnrollmentWrites(t: Token, node: Node, d: Description, now: int): Buffer {
    var nodeId := node.identity.nodeId;
    Buffer(map[t.tokenId := t.(consumedAt := Some(now), consumedBy := Some(nodeId))], map[nodeId := node], map[], None,
           [RedemptionDraft(t, node, d)])
  }

  function RedeemWrites(
    s: Settings, m: Mesh, tokenId: string, secretHash: string, d: Description, publicKey: string, nodeId: string,
    now: int): Buffer
  {
    if tokenId !in m.tokens || m.tokens[tokenId].secretHash != secretHash then
      NO_WRITES.(drafts := [Rejection("enrollment-unknown", d.nodeName)])
    else
      var t := m.tokens[tokenId];
      match EnrollmentFailure(t, d, now)
      case Some(failure) =>
        if Replays(m, t, publicKey) then NO_WRITES else NO_WRITES.(drafts := [Rejection(failure, d.nodeName)])
      case None =>
        EnrollmentWrites(t, Enrolled(s, t, d, publicKey, nodeId, now), d, now)
  }

  // ----- Sessions and heartbeats ---------------------------------------------------------------

  /** `None` where the transaction raises and is dropped. */
  function AttachWrites(
    s: Settings, m: Mesh, nodeId: string, sessionId: string, declared: set<string>, agentVersion: string,
    architecture: string, now: int): Option<Buffer>
  {
    if nodeId !in m.nodes || m.nodes[nodeId].revokedAt.Some? then None
    else
      var n := m.nodes[nodeId];
      var attached := n.(sessionId := Some(sessionId), sessionStartedAt := Some(now), lastHeartbeatAt := Some(now),
                         agentVersion := agentVersion, architecture := architecture, declared := declared * s.known);
      Some(NO_WRITES.(
        nodes := map[nodeId := attached],
        drafts := [Draft(n.identity.nodeName, SessionOpened, Allow, "", Some(nodeId), None,
                         map["session_id" := Text(sessionId), "declared_capabilities" := Names(attached.declared),
                             "effective_capabilities" := Names(Effective(s, attached))])]))
  }

  /** Grant, declaration and catalog intersected. */
  function Effective(s: Settings, n: Node): set<string> {
    n.identity.granted * n.declared * s.dispatchable
  }

  function Disconnected(n: Node): Node {
    n.(sessionId := None, sessionStartedAt := None)
  }

  function DetachWrites(m: Mesh, nodeId: string, sessionId: string, reason: string): Buffer {
    if nodeId !in m.nodes || m.nodes[nodeId].sessionId != Some(sessionId) then NO_WRITES
    else
      NO_WRITES.(
        nodes := map[nodeId := Disconnected(m.nodes[nodeId])],
        drafts := [Draft(m.nodes[nodeId].identity.nodeName, SessionClosed, Observe, reason, Some(nodeId), None,
                         map["session_id" := Text(sessionId)])])
  }

  function HeartbeatWrites(m: Mesh, nodeId: string, sessionId: string, health: Health): Option<Buffer> {
    if nodeId !in m.nodes || m.nodes[nodeId].sessionId != Some(sessionId) then None
    else
      Some(NO_WRITES.(nodes := map[nodeId := m.nodes[nodeId].(lastHeartbeatAt := Some(health.reportedAt),
                                                               lastHealth := Some(health))]))
  }

  predicate Silent(s: Settings, n: Node, now: int) {
    n.sessionId.Some? && n.lastHeartbeatAt.Some? && now - n.lastHeartbeatAt.value > s.expirySeconds
  }

  function ExpiryDraft(n: Node): Draft
    requires n.sessionId.Some?
  {
    Draft("control-plane", HeartbeatExpired, Observe, "", Some(n.identity.nodeId), None,
          map["session_id" := Text(n.sessionId.value)])
  }

  /** One expiry event per silent node, in listing order. */
  function SweepDrafts(s: Settings, nodes: map<string, Node>, order: seq<string>, now: int): seq<Draft> {
    if order == [] then []
    else
      var id := order[|order| - 1];
      SweepDrafts(s, nodes, order[..|order| - 1], now)
      + (if id in nodes && Silent(s, nodes[id], now) then [ExpiryDraft(nodes[id])] else [])
  }

  function SweepWrites(s: Settings, m: Mesh, order: seq<string>, now: int): Buffer {
    NO_WRITES.(
      nodes := map id | id in m.nodes && Silent(s, m.nodes[id], now) :: Disconnected(m.nodes[id]),
      drafts := SweepDrafts(s, m.nodes, order, now))
  }

  // ----- Restart recovery -------------------------------------------------------------------------

  function RestartDraft(n: Node): Draft
    requires n.sessionId.Some?
  {
    Draft("control-plane", SessionClosed, Observe, RESTART_REASON, Some(n.identity.nodeId), None,
          map["session_id" := Text(n.sessionId.value)])
  }

  function StatusText(s: JobStatus): string {
    match s
    case Pending => "pending" case Dispatched => "dispatched" case Running => "running"
    case Succeeded => "succeeded" case Failed => "failed" case Cancelled => "cancelled"
    case Rejected => "rejected" case TimedOut => "timed-out"
  }

  function ReconcileDraft(j: Job): Draft {
    Draft("control-plane", JobReconciled, Observe, RESTART_REASON, Some(j.nodeId), Some(j.jobId),
          map["previous_status" := Text(StatusText(j.status))])
  }

  function NodeRestartDrafts(nodes: map<string, Node>, order: seq<string>): seq<Draft> {
    if order == [] then []
    else
      var id := order[|order| - 1];
      NodeRestartDrafts(nodes, order[..|order| - 1])
      + (if id in nodes && nodes[id].sessionId.Some? then [RestartDraft(nodes[id])] else [])
  }

  function JobRestartDrafts(jobs: map<string, Job>, order: seq<string>): seq<Draft> {
    if order == [] then []
    else
      var id := order[|order| - 1];
      JobRestartDrafts(jobs, order[..|order| - 1])
      + (if id in jobs && !jobs[id].status.Terminal() then [ReconcileDraft(jobs[id])] else [])
  }

  function RecoverWrites(m: Mesh, nodeOrder: seq<string>, jobOrder: seq<string>, now: int): Buffer {
    NO_WRITES.(
      nodes := map id | id in m.nodes && m.nodes[id].sessionId.Some? :: Disconnected(m.nodes[id]),
      jobs := map id | id in m.jobs && !m.jobs[id].status.Terminal() ::
                m.jobs[id].(status := TimedOut, updatedAt := now, reason := RESTART_REASON),
      drafts := NodeRestartDrafts(m.nodes, nodeOrder) + JobRestartDrafts(m.jobs, jobOrder))
  }

  // ----- Lifecycle ---------------------------------------------------------------------------------

  datatype Lifecycle = Quarantining | Restoring | Revoking

  function Changed(n: Node, change: Lifecycle, reason: string, now: int): Node {
    match change
    case Quarantining => n.(quarantinedAt := Some(now), quarantineReason := reason)
    case Restoring => n.(quarantinedAt := None, quarantineReason := "")
    case Revoking =>
      n.(revokedAt := if n.revokedAt.Some? then n.revokedAt else Some(now),
         revocationReason := if n.revocationReason != "" then n.revocationReason else reason,
         sessionId := None, sessionStartedAt := None)
  }

  function LifecycleAction(change: Lifecycle): Action {
    match change
    case Quarantining => NodeQuarantined
    case Restoring => NodeRestored
    case Revoking => NodeRevoked
  }

  function LifecycleWrites(m: Mesh, nodeId: string, change: Lifecycle, actor: string, reason: string, now: int)
    : Option<Buffer>
  {
    if nodeId !in m.nodes || (change.Restoring? && m.nodes[nodeId].revokedAt.Some?) then None
    else
      Some(NO_WRITES.(
        nodes := map[nodeId := Changed(m.nodes[nodeId], change, reason, now)],
        drafts := [Draft(actor, LifecycleAction(change), Allow, reason, Some(nodeId), None, map[])]))
  }

  // ----- The kill switch ------------------------------------------------------------------------------

  function FreezeWrites(m: Mesh, actor: string, reason: string, now: int): Buffer {
    if m.control.frozen then NO_WRITES
    else
      NO_WRITES.(
        control := Some(Control(true, m.control.freezeEpoch + 1, Some(now), reason)),
        drafts := [Draft(actor, DispatchFrozen, Allow, reason, None, None,
                         map["freeze_epoch" := Number(m.control.freezeEpoch + 1)])])
  }

  predicate Thaws(m: Mesh, expected: int) {
    m.control.frozen && expected == m.control.freezeEpoch
  }

  function UnfreezeWrites(m: Mesh, actor: string, expected: int, reason: string, now: int): Buffer {
    if !m.control.frozen then NO_WRITES
    else if !Thaws(m, expected) then
      NO_WRITES.(drafts := [Draft(actor, DispatchUnfrozen, Deny, "freeze-epoch-mismatch", None, None,
                                  map["expected" := Number(expected), "actual" := Number(m.control.freezeEpoch)])])
    else
      NO_WRITES.(
        control := Some(Control(false, m.control.freezeEpoch, Some(now), reason)),
        drafts := [Draft(actor, DispatchUnfrozen, Allow, reason, None, None,
                         map["freeze_epoch" := Number(m.control.freezeEpoch)])])
  }

  // ----- Runs --------------------------------------------------------------------------------------------

  datatype Step =
    | Issue(grant: Grant, newTokenId: string, secret: string, at: int)
    | RevokeToken(tokenId: string, actor: string, reason: string, at: int)
    | RejectEnrollment(why: string, nodeName: string)
    | Redeem(presentedId: string, secret: string, description: Description, publicKey: string, newNodeId: string, at: int)
    | Attach(nodeId: string, sessionId: string, declared: set<string>, agentVersion: string, architecture: string, at: int)
    | Detach(nodeId: string, sessionId: string, reason: string)
    | Heartbeat(nodeId: string, sessionId: string, health: Health)
    | Sweep(nodeOrder: seq<string>, at: int)
    | Recover(nodeOrder: seq<string>, jobOrder: seq<string>, at: int)
    | UpsertJob(job: Job)
    | Change(nodeId: string, change: Lifecycle, actor: string, reason: string, at: int)
    | Freeze(actor: string, reason: string, at: int)
    | Unfreeze(actor: string, expected: int, reason: string, at: int)
    | RecordAudit(draft: Draft)

  function WritesOf(s: Settings, m: Mesh, step: Step): Option<Buffer> {
    match step
    case Issue(g, id, secret, at) => IssueWrites(s, m, g, id, secret, at)
    case RevokeToken(id, actor, reason, at) => Some(RevokeTokenWrites(m, id, actor, reason, at))
    case RejectEnrollment(why, name) => Some(NO_WRITES.(drafts := [Rejection(why, name)]))
    case Redeem(id, secret, d, key, nodeId, at) => Some(RedeemWrites(s, m, id, secret, d, key, nodeId, at))
    case Attach(id, session, declared, version, architecture, at) =>
      AttachWrites(s, m, id, session, declared, version, architecture, at)
    case Detach(id, session, reason) => Some(DetachWrites(m, id, session, reason))
    case Heartbeat(id, session, health) => HeartbeatWrites(m, id, session, health)
    case Sweep(order, at) => Some(SweepWrites(s, m, order, at))
    case Recover(nodeOrder, jobOrder, at) => Some(RecoverWrites(m, nodeOrder, jobOrder, at))
    case UpsertJob(job) => Some(NO_WRITES.(jobs := map[job.jobId := job]))
    case Change(id, change, actor, reason, at) => LifecycleWrites(m, id, change, actor, reason, at)
    case Freeze(actor, reason, at) => Some(FreezeWrites(m, actor, reason, at))
    case Unfreeze(actor, expected, reason, at) => Some(UnfreezeWrites(m, actor, expected, reason, at))
    case RecordAudit(draft) => Some(NO_WRITES.(drafts := [draft]))
  }

  function Apply(s: Settings, r: Recipe, m: Mesh, step: Step): Mesh {
    match WritesOf(s, m, step)
    case None => m
    case Some(b) => Commit(r, m, b)
  }

  function Run(s: Settings, r: Recipe, steps: seq<Step>): Mesh {
    if steps == [] then EMPTY_MESH else Apply(s, r, Run(s, r, steps[..|steps| - 1]), steps[|steps| - 1])
  }

  /** Token and node ids are minted, never reused. */
  predicate FreshIds(m: Mesh, step: Step) {
    && (step.Issue? ==> step.newTokenId !in m.tokens)
    && (step.Redeem? ==> step.newNodeId !in m.nodes)
  }

  ghost predicate MintsFreshIds(s: Settings, r: Recipe, steps: seq<Step>) {
    forall i :: 0 <= i < |steps| ==> FreshIds(Run(s, r, steps[..i]), steps[i])
  }
}
