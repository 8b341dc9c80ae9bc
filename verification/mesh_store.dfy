/** Node-mesh records, the audit chain over them, and the transaction that
    buffers writes and commits them together with their audit events. */
module MeshStore {
  import opened Outcomes
  import HashChain
  import Scopes

  // ----- Records ----------------------------------------------------------------------

  datatype NodeKind = ControlPlaneHost | Workstation | CloudWorker

  datatype Token = Token(
    tokenId: string, secretHash: string, nodeName: string, kind: NodeKind, platform: Scopes.Platform,
    granted: set<string>, scopes: Scopes.Documents, issuedAt: int, expiresAt: int, issuedBy: string,
    consumedAt: Option<int>, consumedBy: Option<string>, revokedAt: Option<int>)

  /** What enrollment fixes about a node. */
  datatype Identity = Identity(
    nodeId: string, nodeName: string, kind: NodeKind, platform: Scopes.Platform, publicKey: string,
    granted: set<string>, scopes: Scopes.Documents, tokenId: string, enrolledAt: int, labels: seq<(string, string)>)

  datatype Health = Health(reportedAt: int, activeJobs: nat, details: string)

  datatype Node = Node(
    identity: Identity, architecture: string, agentVersion: string, declared: set<string>,
    sessionId: Option<string>, sessionStartedAt: Option<int>, lastHeartbeatAt: Option<int>,
    lastHealth: Option<Health>, quarantinedAt: Option<int>, quarantineReason: string,
    revokedAt: Option<int>, revocationReason: string)

  datatype JobStatus = Pending | Dispatched | Running | Succeeded | Failed | Cancelled | Rejected | TimedOut {
    predicate Terminal() {
      Succeeded? || Failed? || Cancelled? || Rejected? || TimedOut?
    }
  }

  datatype Job = Job(
    jobId: string, nodeId: string, capability: string, dedupeKey: string, status: JobStatus, attempt: int,
    authority: string, createdAt: int, updatedAt: int, progressEvents: int, lastMessage: string, reason: string)

  datatype Control = Control(frozen: bool, freezeEpoch: nat, changedAt: Option<int>, reason: string)

  const OPEN_CONTROL := Control(false, 0, None, "")

  // ----- The audit chain ------------------------------------------------------------------

  datatype Action =
    | EnrollmentIssued | EnrollmentGrantRevoked | EnrollmentRedeemed | EnrollmentRejected
    | SessionOpened | SessionClosed | HeartbeatExpired | NodeQuarantined | NodeRestored | NodeRevoked
    | DispatchFrozen | DispatchUnfrozen | JobReconciled | OtherAction(name: string)

  datatype Decision = Allow | Deny | Observe

  datatype Draft = Draft(
    actor: string, action: Action, decision: Decision, reason: string, nodeId: Option<string>,
    jobId: Option<string>, payload: Payload)

  datatype Value = Text(text: string) | Names(names: set<string>) | Number(number: int)

  type Payload = map<string, Value>

  /** Event id and time of recording, which the surroundings supply. */
  datatype Stamp = Stamp(eventId: string, recordedAt: string)

  datatype Body = Body(stamp: Stamp, draft: Draft, payloadDigest: string)

  type Event = HashChain.Link<Body>

  /** Hashing, digesting and redaction, and the stamp each sequence number gets. */
  datatype Recipe = Recipe(
    hash: HashChain.Hash<Body>, digest: Payload -> string, redact: Payload -> Payload, stamp: int -> Stamp)

  /** Sealing one draft: its payload is redacted before anything is hashed. */
  function Sealed(r: Recipe, draft: Draft, sequence: int): Body {
    var safe := r.redact(draft.payload);
    Body(r.stamp(sequence), draft.(payload := safe), r.digest(safe))
  }

  function LinkAll(r: Recipe, events: seq<Event>, drafts: seq<Draft>): seq<Event> {
    if drafts == [] then events
    else
      var before := LinkAll(r, events, drafts[..|drafts| - 1]);
      HashChain.Append(r.hash, before, Sealed(r, drafts[|drafts| - 1], |before| + 1))
  }

  predicate DigestsMatch(r: Recipe, events: seq<Event>) {
    forall i :: 0 <= i < |events| ==> events[i].body.payloadDigest == r.digest(events[i].body.draft.payload)
  }

  /** What `verify_chain` confirms. */
  predicate Verifies(r: Recipe, events: seq<Event>) {
    HashChain.Chained(r.hash, events) && DigestsMatch(r, events)
  }

  method VerifyChain(r: Recipe, events: seq<Event>) returns (ok: bool)
    ensures ok <==> Verifies(r, events)
  {
    ok := HashChain.VerifyChain(r.hash, events);
    if !ok { return; }
    for i := 0 to |events|
      invariant forall j :: 0 <= j < i ==> events[j].body.payloadDigest == r.digest(events[j].body.draft.payload)
    {
      if events[i].body.payloadDigest != r.digest(events[i].body.draft.payload) {
        return false;
      }
    }
  }

  /** Sealing drafts only ever extends a verifying chain to a verifying one. */
  lemma {:induction false} LinkAllKeepsVerifying(r: Recipe, events: seq<Event>, drafts: seq<Draft>)
    requires Verifies(r, events)
    ensures Verifies(r, LinkAll(r, events, drafts))
    ensures events <= LinkAll(r, events, drafts) && |LinkAll(r, events, drafts)| == |events| + |drafts|
  {
    if drafts != [] {
      var n := |drafts| - 1;
      LinkAllKeepsVerifying(r, events, drafts[..n]);
      var before := LinkAll(r, events, drafts[..n]);
      hide HashChain.Chained;
      HashChain.AppendKeepsChained(r.hash, before, Sealed(r, drafts[n], |before| + 1));
    }
  }

  /** Each draft becomes one event, in order, with the payload redacted and the
      digest taken of what is stored. */
  lemma {:induction false} SealsEachDraft(r: Recipe, events: seq<Event>, drafts: seq<Draft>, i: nat)
    requires i < |drafts|
    ensures |LinkAll(r, events, drafts)| == |events| + |drafts|
    ensures var body := LinkAll(r, events, drafts)[|events| + i].body;
            && body.draft == drafts[i].(payload := r.redact(drafts[i].payload))
            && body.payloadDigest == r.digest(body.draft.payload) && body.stamp == r.stamp(|events| + i + 1)
  {
    var n := |drafts| - 1;
    if n > 0 { SealsEachDraft(r, events, drafts[..n], if i < n then i else 0); }
    var before := LinkAll(r, events, drafts[..n]);
    HashChain.AppendAddsOne(r.hash, before, Sealed(r, drafts[n], |before| + 1));
  }

  /** Two verifying chains that share an event hash agree up to that event. */
  lemma SharedEventMeansSharedHistory(r: Recipe, a: seq<Event>, b: seq<Event>, i: nat, j: nat)
    requires HashChain.Injective(r.hash) && Verifies(r, a) && Verifies(r, b)
    requires i < |a| && j < |b| && a[i].eventHash == b[j].eventHash
    ensures i == j && a[..i + 1] == b[..i + 1]
  {
    HashChain.SharedHashMeansSharedHistory(r.hash, a, b, i, j);
  }

  // ----- State and transactions -------------------------------------------------------------

  datatype Mesh = Mesh(
    tokens: map<string, Token>, nodes: map<string, Node>, jobs: map<string, Job>, control: Control,
    events: seq<Event>)

  const EMPTY_MESH := Mesh(map[], map[], map[], OPEN_CONTROL, [])

  /** Writes not yet committed. */
  datatype Buffer = Buffer(
    tokens: map<string, Token>, nodes: map<string, Node>, jobs: map<string, Job>, control: Option<Control>,
    drafts: seq<Draft>)

  const NO_WRITES := Buffer(map[], map[], map[], None, [])

  function Commit(r: Recipe, m: Mesh, b: Buffer): Mesh {
    Mesh(m.tokens + b.tokens, m.nodes + b.nodes, m.jobs + b.jobs,
         if b.control.Some? then b.control.value else m.control,
         LinkAll(r, m.events, b.drafts))
  }

  /** Committing keeps the chain verifying and the past events in place; a
      transaction that wrote nothing changes nothing. */
  lemma CommitKeepsVerifying(r: Recipe, m: Mesh, b: Buffer)
    requires Verifies(r, m.events)
    ensures Verifies(r, Commit(r, m, b).events) && m.events <= Commit(r, m, b).events
    ensures |Commit(r, m, b).events| == |m.events| + |b.drafts|
    ensures Commit(r, m, NO_WRITES) == m
  {
    LinkAllKeepsVerifying(r, m.events, b.drafts);
    assert m.tokens + map[] == m.tokens && m.nodes + map[] == m.nodes && m.jobs + map[] == m.jobs;
  }

  class Store {
    const recipe: Recipe
    var tokens: map<string, Token>
    var nodes: map<string, Node>
    var jobs: map<string, Job>
    var control: Control
    var events: seq<Event>

    ghost function State(): Mesh
      reads this
    {
      Mesh(tokens, nodes, jobs, control, events)
    }

    ghost predicate Valid()
      reads this
    {
      Verifies(recipe, events)
    }

    constructor (recipe: Recipe)
      ensures this.recipe == recipe && State() == EMPTY_MESH && Valid()
    {
      this.recipe := recipe;
      tokens, nodes, jobs, control, events := map[], map[], map[], OPEN_CONTROL, [];
    }

    method AuditHead() returns (head: string)
      ensures head == HashChain.Head(events)
    {
      return if events == [] then HashChain.GENESIS else events[|events| - 1].eventHash;
    }
  }

  /** The overlay: reads see buffered writes first, the store sees none of them
      until `Finish`; dropping the transaction instead leaves the store as it was. */
  class Transaction {
    const store: Store
    var tokens: map<string, Token>
    var nodes: map<string, Node>
    var jobs: map<string, Job>
    var control: Option<Control>
    var drafts: seq<Draft>

    ghost function Writes(): Buffer
      reads this
    {
      Buffer(tokens, nodes, jobs, control, drafts)
    }

    constructor (store: Store)
      ensures this.store == store && Writes() == NO_WRITES
    {
      this.store := store;
      tokens, nodes, jobs, control, drafts := map[], map[], map[], None, [];
    }

    method GetToken(tokenId: string) returns (r: Option<Token>)
      ensures var seen := store.tokens + tokens; r == if tokenId in seen then Some(seen[tokenId]) else None
    {
      if tokenId in tokens { return Some(tokens[tokenId]); }
      if tokenId in store.tokens { return Some(store.tokens[tokenId]); }
      return None;
    }

    method PutToken(record: Token)
      modifies this
      ensures Writes() == old(Writes()).(tokens := old(tokens)[record.tokenId := record])
    {
      tokens := tokens[record.tokenId := record];
    }

    method GetNode(nodeId: string) returns (r: Option<Node>)
      ensures var seen := store.nodes + nodes; r == if nodeId in seen then Some(seen[nodeId]) else None
    {
      if nodeId in nodes { return Some(nodes[nodeId]); }
      if nodeId in store.nodes { return Some(store.nodes[nodeId]); }
      return None;
    }

    method PutNode(record: Node)
      modifies this
      ensures Writes() == old(Writes()).(nodes := old(nodes)[record.identity.nodeId := record])
    {
      nodes := nodes[record.identity.nodeId := record];
    }

    method PutJob(record: Job)
      modifies this
      ensures Writes() == old(Writes()).(jobs := old(jobs)[record.jobId := record])
    {
      jobs := jobs[record.jobId := record];
    }

    method GetControl() returns (c: Control)
      ensures c == if control.Some? then control.value else store.control
    {
      return if control.Some? then control.value else store.control;
    }

    method PutControl(c: Control)
      modifies this
      ensures Writes() == old(Writes()).(control := Some(c))
    {
      control := Some(c);
    }

    method AppendAudit(draft: Draft)
      modifies this
      ensures Writes() == old(Writes()).(drafts := old(drafts) + [draft])
    {
      drafts := drafts + [draft];
    }

    method Finish()
      requires store.Valid()
      modifies store
      ensures store.State() == Commit(store.recipe, old(store.State()), Writes())
      ensures store.Valid()
    {
      CommitKeepsVerifying(store.recipe, store.State(), Writes());
      hide Verifies, LinkAll;
      store.tokens := store.tokens + tokens;
      store.nodes := store.nodes + nodes;
      store.jobs := store.jobs + jobs;
      if control.Some? {
        store.control := control.value;
      }
      SealDrafts();
    }

    method SealDrafts()
      modifies store`events
      ensures store.events == LinkAll(store.recipe, old(store.events), drafts)
    {
      hide HashChain.Append, Sealed;
      for i := 0 to |drafts|
        invariant store.events == LinkAll(store.recipe, old(store.events), drafts[..i])
      {
        assert drafts[..i + 1][..i] == drafts[..i];
        var n := |store.events| + 1;
        var previous := store.AuditHead();
        var sealed := Sealed(store.recipe, drafts[i], n);
        SealedAppends(store.recipe, store.events, sealed);
        store.events := store.events + [HashChain.Link(n, sealed, previous, store.recipe.hash(n, sealed, previous))];
      }
      assert drafts[..|drafts|] == drafts;
    }
  }

  lemma SealedAppends(r: Recipe, events: seq<Event>, body: Body)
    ensures var n, previous := |events| + 1, HashChain.Head(events);
            HashChain.Append(r.hash, events, body)
            == events + [HashChain.Link(n, body, previous, r.hash(n, body, previous))]
  {
  }
}
