/** Admitting a dispatch to a node, and choosing the node for one. */
module Selection {
  import opened MeshStore
  import opened Outcomes
  import opened Registry
  import opened RegistryRuns
  import RegistryDecisions
  import Lexical
  import PosixPaths
  import Scopes

  datatype NodeState = PendingNode | Online | Offline | Quarantined | Revoked

  function StateOf(s: Settings, n: Node, now: int): NodeState {
    if n.revokedAt.Some? then Revoked
    else if n.quarantinedAt.Some? then Quarantined
    else if n.sessionId.None? || n.lastHeartbeatAt.None? then
      if n.lastHeartbeatAt.Some? then Offline else PendingNode
    else if now - n.lastHeartbeatAt.value <= s.expirySeconds then Online
    else Offline
  }

  datatype Refusal =
    | NotDispatchable | DispatchIsFrozen | NodeUnknown | NodeIsRevoked | NodeIsQuarantined | NotGranted | NotDeclared
    | OutsideScope | NotApproved | NodeOffline | NoEligibleNode

  /** What is being dispatched, and how a chosen node's approval is decided. */
  datatype Request = Request(
    capability: string, parameters: Scopes.Parameters, needsApproval: bool, approved: string -> bool)

  /** The scope check of one node, on its own platform. */
  predicate ScopeAllows(s: Settings, n: Node, q: Request) {
    var scopes := Scopes.ParseScopes(s.rules, n.identity.scopes, n.identity.platform);
    scopes.Some? && Scopes.ScopedDispatch(s.rules, q.capability, scopes.value, q.parameters)
  }

  /** `assert_dispatchable`. */
  function AssertDispatchable(s: Settings, m: Mesh, nodeId: string, q: Request, now: int): Result<Node, Refusal> {
    if q.capability !in s.dispatchable then Err(NotDispatchable)
    else if m.control.frozen then Err(DispatchIsFrozen)
    else if nodeId !in m.nodes then Err(NodeUnknown)
    else
      var n := m.nodes[nodeId];
      var state := StateOf(s, n, now);
      if state.Revoked? then Err(NodeIsRevoked)
      else if state.Quarantined? then Err(NodeIsQuarantined)
      else if q.capability !in n.identity.granted then Err(NotGranted)
      else if q.capability !in n.declared then Err(NotDeclared)
      else if !ScopeAllows(s, n, q) then Err(OutsideScope)
      else if q.needsApproval && !q.approved(nodeId) then Err(NotApproved)
      else if !state.Online? then Err(NodeOffline)
      else Ok(n)
  }

  /** Neither revoked nor quarantined, connected, and heard from within the expiry. */
  predicate Answering(s: Settings, n: Node, now: int) {
    && n.revokedAt == None && n.quarantinedAt == None && n.sessionId != None
    && n.lastHeartbeatAt != None && now <= n.lastHeartbeatAt.value + s.expirySeconds
  }

  lemma OnlineIsAnswering(s: Settings, n: Node, now: int)
    ensures StateOf(s, n, now).Online? <==> Answering(s, n, now)
  {
  }

  /** A dispatch is admitted exactly when it is open and the capability is
      dispatchable, granted, declared, in scope and approved on an answering node. */
  lemma AdmitsExactly(s: Settings, m: Mesh, nodeId: string, q: Request, now: int)
    ensures AssertDispatchable(s, m, nodeId, q, now).Ok? <==>
              && q.capability in s.dispatchable && !m.control.frozen && nodeId in m.nodes
              && Answering(s, m.nodes[nodeId], now)
              && q.capability in m.nodes[nodeId].identity.granted && q.capability in m.nodes[nodeId].declared
              && ScopeAllows(s, m.nodes[nodeId], q) && (q.needsApproval ==> q.approved(nodeId))
    ensures AssertDispatchable(s, m, nodeId, q, now).Ok? ==> AssertDispatchable(s, m, nodeId, q, now).value == m.nodes[nodeId]
  {
    if nodeId in m.nodes { OnlineIsAnswering(s, m.nodes[nodeId], now); }
    hide Answering, ScopeAllows;
  }

  // ----- Order of preference --------------------------------------------------------------

  function ActiveJobs(n: Node): nat {
    if n.lastHealth.Some? then n.lastHealth.value.activeJobs else 0
  }

  /** Fewer active jobs first, then the smaller node id. */
  predicate Before(a: Node, b: Node) {
    || ActiveJobs(a) < ActiveJobs(b)
    || (ActiveJobs(a) == ActiveJobs(b) && Lexical.Less(a.identity.nodeId, b.identity.nodeId))
  }

  predicate NotAfter(a: Node, b: Node) {
    a == b || Before(a, b) || (ActiveJobs(a) == ActiveJobs(b) && a.identity.nodeId == b.identity.nodeId)
  }

  lemma NotAfterTotal(a: Node, b: Node)
    ensures NotAfter(a, b) || Before(b, a)
  {
    Lexical.Trichotomy(a.identity.nodeId, b.identity.nodeId);
  }

  lemma NotAfterTransitive(a: Node, b: Node, c: Node)
    requires NotAfter(a, b) && NotAfter(b, c)
    ensures NotAfter(a, c)
  {
    if Lexical.Less(a.identity.nodeId, b.identity.nodeId) && Lexical.Less(b.identity.nodeId, c.identity.nodeId) {
      Lexical.Transitive(a.identity.nodeId, b.identity.nodeId, c.identity.nodeId);
    }
  }

  predicate LeastOf(n: Node, s: seq<Node>) {
    n in s && forall i :: 0 <= i < |s| ==> NotAfter(n, s[i])
  }

  /** Insertion keeps equals in order, as Python's sort does. */
  function Insert(n: Node, sorted: seq<Node>): seq<Node> {
    if sorted == [] || Before(n, sorted[0]) then [n] + sorted else [sorted[0]] + Insert(n, sorted[1..])
  }

  function SortByLoad(s: seq<Node>): seq<Node> {
    if s == [] then [] else Insert(s[|s| - 1], SortByLoad(s[..|s| - 1]))
  }

  /** The first node of the sorted list is the least of the list. */
  lemma {:induction false} SortedHeadIsLeast(s: seq<Node>)
    requires s != []
    ensures SortByLoad(s) != [] && LeastOf(SortByLoad(s)[0], s)
  {
    var n := |s| - 1;
    assert s == s[..n] + [s[n]];
    if n > 0 {
      SortedHeadIsLeast(s[..n]);
      var h := SortByLoad(s[..n])[0];
      NotAfterTotal(h, s[n]);
      forall i | 0 <= i < |s| ensures NotAfter(SortByLoad(s)[0], s[i]) {
        if i < n {
          assert NotAfter(h, s[..n][i]);
          if Before(s[n], h) { NotAfterTransitive(s[n], h, s[i]); }
        }
      }
    } else {
      assert SortByLoad([]) == [];
      assert s[..0] == [];
    }
  }

  // ----- Choosing ---------------------------------------------------------------------------

  predicate Eligible(s: Settings, n: Node, q: Request, now: int) {
    StateOf(s, n, now).Online? && q.capability in Effective(s, n)
  }

  /** Which records survive both filters of `select_node`. */
  predicate Selectable(s: Settings, n: Node, q: Request, now: int) {
    Eligible(s, n, q, now) && (Scopes.RequiresScope(q.capability) ==> ScopeAllows(s, n, q))
  }

  /** Every node is listed once. */
  ghost predicate Lists(records: seq<Node>, nodes: Nodes) {
    && (forall i :: 0 <= i < |records| ==>
          records[i].identity.nodeId in nodes && nodes[records[i].identity.nodeId] == records[i])
    && (forall id :: id in nodes ==> nodes[id] in records)
  }

  /** What an unpinned selection over the listed records decides. */
  ghost predicate Decides(s: Settings, m: Mesh, records: seq<Node>, q: Request, now: int, r: Result<Node, Refusal>) {
    match r
    case Ok(n) =>
      && q.capability in s.dispatchable && !m.control.frozen
      && n in records && Selectable(s, n, q, now) && (q.needsApproval ==> q.approved(n.identity.nodeId))
      && forall i :: 0 <= i < |records| && Selectable(s, records[i], q, now) ==> NotAfter(n, records[i])
    case Err(why) =>
      if q.capability !in s.dispatchable then why == NotDispatchable
      else if m.control.frozen then why == DispatchIsFrozen
      else if forall i :: 0 <= i < |records| ==> !Eligible(s, records[i], q, now) then why == NoEligibleNode
      else if forall i :: 0 <= i < |records| ==> !Selectable(s, records[i], q, now) then why == NotGranted
      else why == NotApproved && q.needsApproval && LeastIsUnapproved(s, records, q, now)
  }

  ghost predicate LeastIsUnapproved(s: Settings, records: seq<Node>, q: Request, now: int) {
    exists n :: && n in records && Selectable(s, n, q, now) && !q.approved(n.identity.nodeId)
                && forall i :: 0 <= i < |records| && Selectable(s, records[i], q, now) ==> NotAfter(n, records[i])
  }

  method SelectNode(s: Settings, m: Mesh, records: seq<Node>, nodeId: Option<string>, q: Request, now: int)
    returns (r: Result<Node, Refusal>)
    ensures nodeId.Some? ==> r == AssertDispatchable(s, m, nodeId.value, q, now)
    ensures nodeId.None? ==> Decides(s, m, records, q, now, r)
    ensures r.Ok? ==>
      && q.capability in s.dispatchable && !m.control.frozen && Answering(s, r.value, now)
      && q.capability in r.value.identity.granted && q.capability in r.value.declared
  {
    hide Answering, ScopeAllows, StateOf;
    if nodeId.Some? {
      AdmitsExactly(s, m, nodeId.value, q, now);
      return AssertDispatchable(s, m, nodeId.value, q, now);
    }
    if q.capability !in s.dispatchable { return Err(NotDispatchable); }
    if m.control.frozen { return Err(DispatchIsFrozen); }
    var eligible := KeepEligible(s, records, q, now);
    if eligible == [] { return Err(NoEligibleNode); }
    assert eligible[0] in eligible;
    var scoped := eligible;
    if Scopes.RequiresScope(q.capability) {
      scoped := KeepInScope(s, eligible, q);
      if scoped == [] { return Err(NotGranted); }
    }
    SortedHeadIsLeast(scoped);
    var chosen := SortByLoad(scoped)[0];
    OnlineIsAnswering(s, chosen, now);
    if q.needsApproval && !q.approved(chosen.identity.nodeId) {
      return Err(NotApproved);
    }
    return Ok(chosen);
  }

  method KeepEligible(s: Settings, records: seq<Node>, q: Request, now: int) returns (kept: seq<Node>)
    ensures forall n :: n in kept <==> n in records && Eligible(s, n, q, now)
  {
    hide Eligible;
    kept := [];
    for i := 0 to |records|
      invariant forall n :: n in kept <==> n in records[..i] && Eligible(s, n, q, now)
    {
      assert records[..i + 1] == records[..i] + [records[i]];
      if Eligible(s, records[i], q, now) {
        kept := kept + [records[i]];
      }
    }
    assert records[..|records|] == records;
  }

  method KeepInScope(s: Settings, eligible: seq<Node>, q: Request) returns (kept: seq<Node>)
    ensures forall n :: n in kept <==> n in eligible && ScopeAllows(s, n, q)
  {
    hide ScopeAllows;
    kept := [];
    for i := 0 to |eligible|
      invariant forall n :: n in kept <==> n in eligible[..i] && ScopeAllows(s, n, q)
    {
      assert eligible[..i + 1] == eligible[..i] + [eligible[i]];
      if ScopeAllows(s, eligible[i], q) {
        kept := kept + [eligible[i]];
      }
    }
    assert eligible[..|eligible|] == eligible;
  }

  // ----- Agreement with admission ----------------------------------------------------------------

  /** In a reachable mesh every node's scopes still parse on its platform. */
  lemma NodeScopesParse(s: Settings, r: Recipe, m: Mesh, id: string)
    requires Invariant(s, r, m) && id in m.nodes
    ensures Scopes.ParseScopes(s.rules, m.nodes[id].identity.scopes, m.nodes[id].identity.platform).Some?
  {
  }

  /** Selection and admission accept the same nodes, when no approval is needed. */
  lemma SelectableIsDispatchable(s: Settings, r: Recipe, m: Mesh, id: string, q: Request, now: int)
    requires Invariant(s, r, m) && id in m.nodes && !q.needsApproval
    ensures AssertDispatchable(s, m, id, q, now).Ok? <==>
              q.capability in s.dispatchable && !m.control.frozen && Selectable(s, m.nodes[id], q, now)
  {
  }

  /** The jobs a health report counts; none without a report. */
  function Reported(health: Option<Health>): nat {
    match health
    case Some(h) => h.activeJobs
    case None => 0
  }

  /** An unpinned selection returns exactly the least node, by active jobs and
      then id, among those a dispatch would be admitted to at that instant, and
      fails exactly when there is none. */
  lemma SelectionIsLeastAdmissible(
    s: Settings, r: Recipe, m: Mesh, records: seq<Node>, q: Request, now: int, chosen: Result<Node, Refusal>)
    requires Invariant(s, r, m) && Lists(records, m.nodes) && !q.needsApproval
    requires Decides(s, m, records, q, now, chosen)
    ensures chosen.Err? <==> forall id :: id in m.nodes ==> AssertDispatchable(s, m, id, q, now).Err?
    ensures chosen.Ok? ==> AssertDispatchable(s, m, chosen.value.identity.nodeId, q, now) == Ok(chosen.value)
    ensures chosen.Ok? ==> forall id :: id in m.nodes && AssertDispatchable(s, m, id, q, now).Ok? ==>
              id == chosen.value.identity.nodeId || Before(chosen.value, m.nodes[id])
    ensures chosen.Ok? ==> forall id :: id in m.nodes && AssertDispatchable(s, m, id, q, now).Ok? ==>
              var mine, theirs := Reported(chosen.value.lastHealth), Reported(m.nodes[id].lastHealth);
              mine <= theirs && (mine == theirs && id != chosen.value.identity.nodeId ==>
                                   Lexical.Less(chosen.value.identity.nodeId, id))
  {
    forall id | id in m.nodes
      ensures AssertDispatchable(s, m, id, q, now).Ok? <==>
                q.capability in s.dispatchable && !m.control.frozen && Selectable(s, m.nodes[id], q, now)
    {
      SelectableIsDispatchable(s, r, m, id, q, now);
    }
    assert forall id :: id in m.nodes ==> m.nodes[id].identity.nodeId == id by { assert KeysMatch(m.tokens, m.nodes); }
    hide Invariant, Selectable, NotAfter;
    if chosen.Ok? {
      var c := chosen.value;
      assert m.nodes[c.identity.nodeId] == c;
      AdmittedIsTheRecord(s, m, c.identity.nodeId, q, now);
      forall id | id in m.nodes && AssertDispatchable(s, m, id, q, now).Ok?
        ensures id == c.identity.nodeId || Before(c, m.nodes[id])
      {
        var i :| 0 <= i < |records| && records[i] == m.nodes[id];
        NotAfterIsBefore(c, records[i]);
      }
    } else {
      hide AssertDispatchable;
      forall id | id in m.nodes ensures AssertDispatchable(s, m, id, q, now).Err? {
        var i :| 0 <= i < |records| && records[i] == m.nodes[id];
      }
    }
  }

  lemma NotAfterIsBefore(a: Node, b: Node)
    requires NotAfter(a, b)
    ensures a.identity.nodeId == b.identity.nodeId || Before(a, b)
  {
  }

  lemma AdmittedIsTheRecord(s: Settings, m: Mesh, id: string, q: Request, now: int)
    ensures AssertDispatchable(s, m, id, q, now).Ok? ==>
              id in m.nodes && AssertDispatchable(s, m, id, q, now) == Ok(m.nodes[id])
  {
  }

  /** In every run work is only admitted to a node that attached a session not ended
      since, and that reported within the expiry. */
  lemma AdmittedNodesWereHeard(s: Settings, r: Recipe, steps: seq<Step>, id: string, q: Request, now: int)
    returns (attached: nat, reported: nat)
    requires MintsFreshIds(s, r, steps) && AssertDispatchable(s, Run(s, r, steps), id, q, now).Ok?
    ensures id in Run(s, r, steps).nodes && Run(s, r, steps).nodes[id].sessionId.Some?
    ensures var session := Run(s, r, steps).nodes[id].sessionId.value;
            && attached < |steps| && RegistryDecisions.Opens(steps[attached], id, session)
            && forall k :: attached < k < |steps| ==> !RegistryDecisions.Ends(steps[k], id, session)
    ensures reported < |steps|
    ensures exists beat :: RegistryDecisions.Reports(steps[reported], id, beat) && now <= beat + s.expirySeconds
  {
    AdmitsExactly(s, Run(s, r, steps), id, q, now);
    attached := RegistryDecisions.EverySessionIsStillOpen(s, r, steps, id);
    reported := RegistryDecisions.EveryBeatWasReported(s, r, steps, id);
  }

  // ----- From the operator's grant to the file ------------------------------------------------------

  /** The scope a node applies is the one its granting document builds. */
  lemma AppliedScopeIsGranted(s: Settings, documents: Scopes.Documents, platform: Scopes.Platform, capability: string)
    requires Scopes.AllBuild(s.rules, documents, platform)
    ensures var scopes := Scopes.ParseScopes(s.rules, Scopes.Canonical(s.rules, documents, platform), platform);
            && scopes.Some? && (capability in scopes.value <==> capability in documents)
            && (capability in documents ==>
                  Some(scopes.value[capability]) == Scopes.Build(s.rules, capability, documents[capability], platform))
  {
    Scopes.CanonicalBuilds(s.rules, documents, platform);
    hide Scopes.Build, Scopes.ToDocument;
  }

  /** In every run a file operation admitted to a POSIX node names a path that
      normalises to one below a root an operator granted to that node, strictly
      below it when writing, and asks for no more bytes than were granted. */
  lemma FileDispatchStaysInGrant(s: Settings, r: Recipe, steps: seq<Step>, id: string, q: Request, now: int)
    returns (issued: nat, root: nat)
    requires MintsFreshIds(s, r, steps) && AssertDispatchable(s, Run(s, r, steps), id, q, now).Ok?
    requires Scopes.RequiresScope(q.capability) && !Run(s, r, steps).nodes[id].identity.platform.Windows?
    ensures issued < |steps| && steps[issued].Issue? && q.parameters.path.Some?
    ensures q.capability in steps[issued].grant.granted && q.capability in steps[issued].grant.scopes
    ensures var document := steps[issued].grant.scopes[q.capability];
            && document.roots.Some? && root < |document.roots.value|
            && Below(document.roots.value[root], q.parameters.path.value, q.capability == Scopes.FILE_WRITE)
            && (q.parameters.maxBytes.Number? ==>
                  && 1 <= q.parameters.maxBytes.value <= (if q.capability == Scopes.FILE_WRITE then 262_144 else 200_000)
                  && (document.maxBytes.Number? ==> q.parameters.maxBytes.value <= document.maxBytes.value))
  {
    var redeemed;
    issued, redeemed := RegistryDecisions.EveryNodeTracesToAGrant(s, r, steps, id);
    var n, grant := Run(s, r, steps).nodes[id], steps[issued].grant;
    AdmitsExactly(s, Run(s, r, steps), id, q, now);
    AppliedScopeIsGranted(s, grant.scopes, grant.platform, q.capability);
    hide Run, AssertDispatchable, Scopes.Canonical, Scopes.ParseScopes, Answering;
    root := GrantedRoot(s, q, grant.scopes[q.capability], grant.platform);
  }

  ghost predicate Below(root: string, path: string, strictly: bool) {
    var r, p := PosixPaths.Normalize(root), PosixPaths.Normalize(path);
    && r.Ok? && p.Ok? && r.value.anchor == p.value.anchor && r.value.names != []
    && r.value.names <= p.value.names && (strictly ==> r.value.names < p.value.names)
    && PosixPaths.Clean(p.value.names)
  }

  lemma GrantedRoot(s: Settings, q: Request, document: Scopes.ScopeDocument, platform: Scopes.Platform) returns (root: nat)
    requires !platform.Windows? && q.parameters.path.Some?
    requires Scopes.Build(s.rules, q.capability, document, platform).Some?
    requires var scope := Scopes.Build(s.rules, q.capability, document, platform).value;
             Scopes.Resolved(s.rules, scope, q.parameters.path.value).Ok?
    ensures document.roots.Some? && root < |document.roots.value|
    ensures Below(document.roots.value[root], q.parameters.path.value, q.capability == Scopes.FILE_WRITE)
  {
    var scope := Scopes.Build(s.rules, q.capability, document, platform).value;
    root := Scopes.AcceptedPathIsBelowRoot(s.rules, scope, q.parameters.path.value);
    hide PosixPaths.Normalize, Scopes.IsWithin;
  }
}
