/** The authority repository: leases, freeze and recovery, single-use
    challenges, idempotent admission and the audit log over one state. Each
    repository method is one atomic step; as in the source, a method that raises
    part way through keeps what it had already written. */
module Authority {
  import opened Outcomes
  import opened HashChain

  datatype Credential = Credential(
    credentialId: string, commanderId: string, publicKey: string, signCount: int, createdAt: int,
    revokedAt: Option<int>)

  /** The parsed recovery payload stored with a recovery challenge. */
  datatype RecoveryPayload = RecoveryPayload(
    requestId: string, freezeEpoch: int, commanderId: string, guildId: string, channelScope: string,
    issuedAt: int, expiresAt: int)

  datatype Challenge = Challenge(
    challengeId: string, value: string, digest: string, purpose: string, commanderId: string,
    payloadDigest: string, payload: Option<RecoveryPayload>, issuedAt: int, expiresAt: int,
    consumedAt: Option<int>)

  datatype LeaseRequest = LeaseRequest(
    leaseId: string, commanderId: string, guildId: string, channelScope: string, credentialId: string,
    issuedAt: int, expiresAt: int)

  datatype Lease = Lease(
    leaseId: string, authorityEpoch: int, commanderId: string, guildId: string, channelScope: string,
    credentialId: string, issuedAt: int, expiresAt: int, revokedAt: Option<int>, revocationReason: string)

  datatype AdmissionRequest = AdmissionRequest(
    interactionId: string, requestDigest: string, commanderId: string, guildId: string, channelScope: string,
    leaseId: string, authorityEpoch: int, receivedAt: int)

  datatype AdmissionReceipt = AdmissionReceipt(
    interactionId: string, authorityEpoch: int, leaseId: string, workflowId: string, duplicate: bool)

  datatype Admission = Admission(requestDigest: string, receipt: AdmissionReceipt)

  datatype AuditBody =
    | CredentialEnrolled(commanderId: string, credentialId: string, publicKey: string, createdAt: int)
    | LeaseIssued(authorityEpoch: int, commanderId: string, guildId: string, leaseId: string)
    | AuthorityFrozen(authorityEpoch: int, freezeEpoch: int, reason: string, requestId: string)
    | AuthorityRecovered(authorityEpoch: int, freezeEpoch: int, recoveryId: string)

  datatype State = State(
    authorityEpoch: int,
    freezeEpoch: int,
    frozen: bool,
    challenges: map<string, Challenge>,
    credentials: map<string, Credential>,
    leases: map<string, Lease>,
    activeLeaseId: Option<string>,
    interactions: map<string, Admission>,
    audit: seq<Link<AuditBody>>)

  datatype Error = ChallengeConsumed | ChallengeInvalid | AdmissionDenied | RepositoryError

  /** The state a method leaves behind and what it returns or raises. */
  datatype After<T> = After(state: State, result: Result<T, Error>)

  const INITIAL := State(1, 1, false, map[], map[], map[], None, map[], [])

  // ----- Building blocks ------------------------------------------------------

  function Log(h: Hash<AuditBody>, s: State, body: AuditBody): State {
    s.(audit := Append(h, s.audit, body))
  }

  /** Why a challenge cannot be consumed now, if it cannot. */
  function ConsumeError(s: State, id: string, digest: string, now: int): Option<Error> {
    if id !in s.challenges || s.challenges[id].digest != digest then Some(ChallengeInvalid)
    else if s.challenges[id].consumedAt.Some? then Some(ChallengeConsumed)
    else if now > s.challenges[id].expiresAt then Some(ChallengeInvalid)
    else None
  }

  function MarkConsumed(s: State, id: string, now: int): State
    requires id in s.challenges
  {
    s.(challenges := s.challenges[id := s.challenges[id].(consumedAt := Some(now))])
  }

  /** The lease table once the active lease, if any, is revoked. */
  function RevokeIn(leases: map<string, Lease>, active: Option<string>, now: int, reason: string): map<string, Lease> {
    if active.None? || active.value !in leases || leases[active.value].revokedAt.Some? then leases
    else leases[leases[active.value].leaseId := leases[active.value].(revokedAt := Some(now), revocationReason := reason)]
  }

  function RevokeActive(s: State, now: int, reason: string): State {
    s.(leases := RevokeIn(s.leases, s.activeLeaseId, now, reason), activeLeaseId := None)
  }

  function NewLease(s: State, r: LeaseRequest): Lease {
    Lease(r.leaseId, s.authorityEpoch + 1, r.commanderId, r.guildId, r.channelScope, r.credentialId,
          r.issuedAt, r.expiresAt, None, "")
  }

  /** The state once the active lease is replaced by a new one. */
  function Install(s: State, r: LeaseRequest): State {
    s.(authorityEpoch := s.authorityEpoch + 1,
       leases := RevokeIn(s.leases, s.activeLeaseId, r.issuedAt, "replaced")[r.leaseId := NewLease(s, r)],
       activeLeaseId := Some(r.leaseId))
  }

  function IssueLease(h: Hash<AuditBody>, s: State, r: LeaseRequest): After<Lease> {
    if s.frozen then After(s, Err(AdmissionDenied))
    else if r.leaseId in s.leases then After(s, Err(RepositoryError))
    else
      var lease := NewLease(s, r);
      After(Log(h, Install(s, r), LeaseIssued(lease.authorityEpoch, r.commanderId, r.guildId, r.leaseId)), Ok(lease))
  }

  predicate CredentialUsable(s: State, credentialId: string, newSignCount: int) {
    && credentialId in s.credentials
    && s.credentials[credentialId].revokedAt.None?
    && newSignCount >= s.credentials[credentialId].signCount
  }

  function AdvanceCounter(s: State, credentialId: string, newSignCount: int): State
    requires credentialId in s.credentials
  {
    s.(credentials := s.credentials[credentialId := s.credentials[credentialId].(signCount := newSignCount)])
  }

  // ----- Repository methods ---------------------------------------------------

  function CreateChallenge(s: State, c: Challenge): After<()> {
    if c.challengeId in s.challenges then After(s, Err(ChallengeInvalid))
    else if exists id :: id in s.challenges && s.challenges[id].digest == c.digest then After(s, Err(ChallengeInvalid))
    else After(s.(challenges := s.challenges[c.challengeId := c]), Ok(()))
  }

  function ConsumeChallenge(s: State, id: string, digest: string, now: int): After<Challenge> {
    match ConsumeError(s, id, digest, now)
    case Some(e) => After(s, Err(e))
    case None =>
      var t := MarkConsumed(s, id, now);
      After(t, Ok(t.challenges[id]))
  }

  function ReplaceCredential(s: State, c: Credential): After<()> {
    if c.credentialId !in s.credentials then After(s, Err(RepositoryError))
    else After(s.(credentials := s.credentials[c.credentialId := c]), Ok(()))
  }

  function CompleteRegistration(h: Hash<AuditBody>, s: State, id: string, digest: string, c: Credential, now: int)
    : After<Credential>
  {
    match ConsumeError(s, id, digest, now)
    case Some(e) => After(s, Err(e))
    case None => Enrol(h, MarkConsumed(s, id, now), c)
  }

  /** Registration once its challenge is consumed. */
  function Enrol(h: Hash<AuditBody>, s: State, c: Credential): After<Credential> {
    if c.credentialId in s.credentials then After(s, Err(RepositoryError))
    else
      After(Log(h, s.(credentials := s.credentials[c.credentialId := c]),
                CredentialEnrolled(c.commanderId, c.credentialId, c.publicKey, c.createdAt)), Ok(c))
  }

  function CompleteAuthentication(
    h: Hash<AuditBody>, s: State, id: string, digest: string, credentialId: string, newSignCount: int,
    r: LeaseRequest, now: int): After<Lease>
  {
    match ConsumeError(s, id, digest, now)
    case Some(e) => After(s, Err(e))
    case None => IssueWithCredential(h, MarkConsumed(s, id, now), credentialId, newSignCount, r)
  }

  /** Advance the credential's counter, then issue; a counter may not go back. */
  function IssueWithCredential(h: Hash<AuditBody>, s: State, credentialId: string, newSignCount: int, r: LeaseRequest)
    : After<Lease>
  {
    if !CredentialUsable(s, credentialId, newSignCount) then After(s, Err(RepositoryError))
    else IssueLease(h, AdvanceCounter(s, credentialId, newSignCount), r)
  }

  function CompleteRecovery(
    h: Hash<AuditBody>, s: State, id: string, digest: string, expectedFreezeEpoch: int, credentialId: string,
    newSignCount: int, r: LeaseRequest, recoveryId: string, now: int): After<Lease>
  {
    match ConsumeError(s, id, digest, now)
    case Some(e) => After(s, Err(e))
    case None =>
      var t := MarkConsumed(s, id, now);
      if t.challenges[id].purpose != RECOVERY then After(t, Err(ChallengeInvalid))
      else if !t.frozen || t.freezeEpoch != expectedFreezeEpoch then After(t, Err(AdmissionDenied))
      else Thaw(h, t, expectedFreezeEpoch, credentialId, newSignCount, r, recoveryId)
  }

  const RECOVERY := "recovery"

  /** Recovery once its challenge is consumed and the freeze epoch matches. The
      flag is cleared before the lease is issued and stays cleared if that fails. */
  function Thaw(h: Hash<AuditBody>, s: State, expectedFreezeEpoch: int, credentialId: string, newSignCount: int,
                r: LeaseRequest, recoveryId: string): After<Lease>
  {
    if !CredentialUsable(s, credentialId, newSignCount) then After(s, Err(RepositoryError))
    else
      var issued := IssueLease(h, AdvanceCounter(s, credentialId, newSignCount).(frozen := false), r);
      if issued.result.Err? then issued
      else
        After(Log(h, issued.state,
                  AuthorityRecovered(issued.result.value.authorityEpoch, expectedFreezeEpoch, recoveryId)),
              issued.result)
  }

  /** What a fresh admission needs of the lease it names. */
  predicate LeaseAuthorizes(s: State, r: AdmissionRequest) {
    && r.leaseId in s.leases
    && var lease := s.leases[r.leaseId];
      && lease.revokedAt.None?
      && lease.authorityEpoch == s.authorityEpoch
      && lease.authorityEpoch == r.authorityEpoch
      && lease.commanderId == r.commanderId
      && lease.guildId == r.guildId
      && lease.channelScope == r.channelScope
      && r.receivedAt < lease.expiresAt
  }

  function Admit(s: State, r: AdmissionRequest): After<AdmissionReceipt> {
    if r.interactionId in s.interactions then
      var known := s.interactions[r.interactionId];
      if known.requestDigest != r.requestDigest then After(s, Err(AdmissionDenied))
      else After(s, Ok(known.receipt.(duplicate := true)))
    else if s.frozen || !LeaseAuthorizes(s, r) then After(s, Err(AdmissionDenied))
    else
      var lease := s.leases[r.leaseId];
      var receipt := AdmissionReceipt(
        r.interactionId, lease.authorityEpoch, lease.leaseId, "discord-" + r.interactionId, false);
      After(s.(interactions := s.interactions[r.interactionId := Admission(r.requestDigest, receipt)]), Ok(receipt))
  }

  function Freeze(h: Hash<AuditBody>, s: State, requestId: string, reason: string, now: int): State {
    if s.frozen then s
    else
      var t := Raised(s, now, reason);
      Log(h, t, AuthorityFrozen(t.authorityEpoch, t.freezeEpoch, reason, requestId))
  }

  // ----- Runs -------------------------------------------------------------------

  datatype Op =
    | OpCreate(challenge: Challenge)
    | OpConsume(id: string, digest: string, now: int)
    | OpReplaceCredential(credential: Credential)
    | OpRegister(id: string, digest: string, credential: Credential, now: int)
    | OpAuthenticate(id: string, digest: string, credentialId: string, newSignCount: int, lease: LeaseRequest, now: int)
    | OpIssue(lease: LeaseRequest)
    | OpRecover(id: string, digest: string, expectedFreezeEpoch: int, credentialId: string, newSignCount: int,
                lease: LeaseRequest, recoveryId: string, now: int)
    | OpAdmit(request: AdmissionRequest)
    | OpFreeze(requestId: string, reason: string, now: int)
  {
    predicate Consuming() {
      OpConsume? || OpRegister? || OpAuthenticate? || OpRecover?
    }
  }

  function Apply(h: Hash<AuditBody>, s: State, op: Op): State {
    match op
    case OpCreate(c) => CreateChallenge(s, c).state
    case OpConsume(id, digest, now) => ConsumeChallenge(s, id, digest, now).state
    case OpReplaceCredential(c) => ReplaceCredential(s, c).state
    case OpRegister(id, digest, c, now) => CompleteRegistration(h, s, id, digest, c, now).state
    case OpAuthenticate(id, digest, cred, count, r, now) => CompleteAuthentication(h, s, id, digest, cred, count, r, now).state
    case OpIssue(r) => IssueLease(h, s, r).state
    case OpRecover(id, digest, e, cred, count, r, rid, now) => CompleteRecovery(h, s, id, digest, e, cred, count, r, rid, now).state
    case OpAdmit(r) => Admit(s, r).state
    case OpFreeze(rid, reason, now) => Freeze(h, s, rid, reason, now)
  }

  function Run(h: Hash<AuditBody>, ops: seq<Op>): State {
    if ops == [] then INITIAL else Apply(h, Run(h, ops[..|ops| - 1]), ops[|ops| - 1])
  }

  // ----- Invariants -------------------------------------------------------------

  /** The unrevoked leases are exactly the active one, it carries the current
      epoch, and while frozen there is none. */
  ghost predicate OneLiveLease(s: State) {
    LiveIsActive(s.leases, s.activeLeaseId) && EpochsBounded(s.leases, s.activeLeaseId, s.authorityEpoch)
    && (s.frozen ==> s.activeLeaseId.None?)
  }

  ghost predicate LiveIsActive(leases: map<string, Lease>, active: Option<string>) {
    && (forall k :: k in leases ==> leases[k].leaseId == k)
    && (forall k :: k in leases ==> (leases[k].revokedAt.None? <==> active == Some(k)))
    && (active.Some? ==> active.value in leases)
  }

  ghost predicate EpochsBounded(leases: map<string, Lease>, active: Option<string>, epoch: int) {
    && (forall k :: k in leases ==> leases[k].authorityEpoch <= epoch)
    && (active.Some? && active.value in leases ==> leases[active.value].authorityEpoch == epoch)
  }

  datatype EventKind = Enrolment | Issue | Freezing | Recovery

  function KindOf(b: AuditBody): EventKind {
    match b
    case CredentialEnrolled(_, _, _, _) => Enrolment
    case LeaseIssued(_, _, _, _) => Issue
    case AuthorityFrozen(_, _, _, _) => Freezing
    case AuthorityRecovered(_, _, _) => Recovery
  }

  /** How many events of one kind the log holds. */
  function Count(audit: seq<Link<AuditBody>>, kind: EventKind): nat {
    if audit == [] then 0
    else Count(audit[..|audit| - 1], kind) + (if KindOf(audit[|audit| - 1].body) == kind then 1 else 0)
  }

  /** The epochs are what the log counts. */
  ghost predicate EpochsCounted(s: State) {
    && s.authorityEpoch == |s.leases| + s.freezeEpoch
    && Count(s.audit, Issue) == |s.leases|
    && Count(s.audit, Freezing) == s.freezeEpoch - 1
  }

  ghost predicate Invariant(h: Hash<AuditBody>, s: State) {
    OneLiveLease(s) && EpochsCounted(s) && Chained(h, s.audit)
  }

  /** Appending one event keeps the chain and moves exactly its own counter. */
  lemma LogStep(h: Hash<AuditBody>, s: State, body: AuditBody)
    requires Chained(h, s.audit)
    ensures Chained(h, Log(h, s, body).audit)
    ensures forall k :: Count(Log(h, s, body).audit, k) == Count(s.audit, k) + (if KindOf(body) == k then 1 else 0)
  {
    AppendKeepsChained(h, s.audit, body);
    var longer := Append(h, s.audit, body);
    assert longer[..|longer| - 1] == s.audit;
  }

  lemma RevokeLeavesNone(leases: map<string, Lease>, active: Option<string>, now: int, reason: string, epoch: int)
    requires LiveIsActive(leases, active) && EpochsBounded(leases, active, epoch)
    ensures var t := RevokeIn(leases, active, now, reason);
      && t.Keys == leases.Keys
      && LiveIsActive(t, None) && EpochsBounded(t, None, epoch)
  {
  }

  lemma OnlyNewLeaseLives(s: State, r: LeaseRequest)
    requires OneLiveLease(s) && !s.frozen && r.leaseId !in s.leases
    ensures OneLiveLease(Install(s, r)) && |Install(s, r).leases| == |s.leases| + 1
  {
    hide RevokeIn;
    RevokeLeavesNone(s.leases, s.activeLeaseId, r.issuedAt, "replaced", s.authorityEpoch);
    var t := RevokeIn(s.leases, s.activeLeaseId, r.issuedAt, "replaced");
    OneMoreKey(t, s.leases, r.leaseId, NewLease(s, r));
  }

  lemma OneMoreKey(t: map<string, Lease>, leases: map<string, Lease>, id: string, lease: Lease)
    requires t.Keys == leases.Keys && id !in leases
    ensures |t[id := lease]| == |leases| + 1
  {
  }

  lemma IssueKeepsInvariant(h: Hash<AuditBody>, s: State, r: LeaseRequest)
    requires Invariant(h, s)
    ensures Invariant(h, IssueLease(h, s, r).state)
  {
    if !s.frozen && r.leaseId !in s.leases {
      hide Chained, Count, LiveIsActive, EpochsBounded, Append, RevokeIn, NewLease;
      OnlyNewLeaseLives(s, r);
      LogStep(h, Install(s, r), LeaseIssued(s.authorityEpoch + 1, r.commanderId, r.guildId, r.leaseId));
    }
  }

  /** The state a freeze installs before it is logged. */
  function Raised(s: State, now: int, reason: string): State {
    RevokeActive(
      s.(authorityEpoch := s.authorityEpoch + 1, freezeEpoch := s.freezeEpoch + 1, frozen := true), now, reason)
  }

  lemma RaisedHasNoLease(s: State, now: int, reason: string)
    requires OneLiveLease(s)
    ensures OneLiveLease(Raised(s, now, reason)) && |Raised(s, now, reason).leases| == |s.leases|
  {
    hide RevokeIn;
    RevokeLeavesNone(s.leases, s.activeLeaseId, now, reason, s.authorityEpoch);
    var t := RevokeIn(s.leases, s.activeLeaseId, now, reason);
    assert |t| == |t.Keys| && |s.leases| == |s.leases.Keys|;
  }

  lemma FreezeKeepsInvariant(h: Hash<AuditBody>, s: State, requestId: string, reason: string, now: int)
    requires Invariant(h, s)
    ensures Invariant(h, Freeze(h, s, requestId, reason, now))
  {
    if !s.frozen {
      hide Chained, Count, LiveIsActive, EpochsBounded, Append, RevokeIn;
      RaisedHasNoLease(s, now, reason);
      var t := Raised(s, now, reason);
      LogStep(h, t, AuthorityFrozen(t.authorityEpoch, t.freezeEpoch, reason, requestId));
    }
  }

  /** Fields outside the invariant may change freely; clearing the freeze flag
      is safe because a frozen state has no live lease. */
  lemma UnrelatedChange(h: Hash<AuditBody>, s: State, t: State)
    requires Invariant(h, s)
    requires t == s.(challenges := t.challenges, credentials := t.credentials, interactions := t.interactions,
                     frozen := t.frozen)
    requires !t.frozen || t.frozen == s.frozen
    ensures Invariant(h, t)
  {
  }

  /** Events that are neither lease-issued nor authority-frozen move no counter. */
  lemma OtherEventKeepsInvariant(h: Hash<AuditBody>, s: State, body: AuditBody)
    requires Invariant(h, s) && !body.LeaseIssued? && !body.AuthorityFrozen?
    ensures Invariant(h, Log(h, s, body))
  {
    hide Chained, Count;
    LogStep(h, s, body);
  }

  lemma EnrolKeepsInvariant(h: Hash<AuditBody>, s: State, c: Credential)
    requires Invariant(h, s)
    ensures Invariant(h, Enrol(h, s, c).state)
  {
    hide Invariant;
    var t := s.(credentials := s.credentials[c.credentialId := c]);
    UnrelatedChange(h, s, t);
    OtherEventKeepsInvariant(h, t, CredentialEnrolled(c.commanderId, c.credentialId, c.publicKey, c.createdAt));
  }

  lemma IssueWithCredentialKeepsInvariant(
    h: Hash<AuditBody>, s: State, credentialId: string, newSignCount: int, r: LeaseRequest)
    requires Invariant(h, s)
    ensures Invariant(h, IssueWithCredential(h, s, credentialId, newSignCount, r).state)
  {
    hide Invariant, IssueLease;
    if CredentialUsable(s, credentialId, newSignCount) {
      UnrelatedChange(h, s, AdvanceCounter(s, credentialId, newSignCount));
      IssueKeepsInvariant(h, AdvanceCounter(s, credentialId, newSignCount), r);
    }
  }

  lemma ThawKeepsInvariant(h: Hash<AuditBody>, s: State, expectedFreezeEpoch: int, credentialId: string,
                           newSignCount: int, r: LeaseRequest, recoveryId: string)
    requires Invariant(h, s)
    ensures Invariant(h, Thaw(h, s, expectedFreezeEpoch, credentialId, newSignCount, r, recoveryId).state)
  {
    hide Invariant, IssueLease;
    if CredentialUsable(s, credentialId, newSignCount) {
      var thawed := AdvanceCounter(s, credentialId, newSignCount).(frozen := false);
      UnrelatedChange(h, s, thawed);
      IssueKeepsInvariant(h, thawed, r);
      var issued := IssueLease(h, thawed, r);
      if issued.result.Ok? {
        OtherEventKeepsInvariant(h, issued.state,
          AuthorityRecovered(issued.result.value.authorityEpoch, expectedFreezeEpoch, recoveryId));
      }
    }
  }

  lemma ApplyKeepsInvariant(h: Hash<AuditBody>, s: State, op: Op)
    requires Invariant(h, s)
    ensures Invariant(h, Apply(h, s, op))
  {
    hide Invariant, IssueLease, Freeze, Thaw, IssueWithCredential, Enrol;
    if op.Consuming() && ConsumeError(s, op.id, op.digest, op.now).None? {
      UnrelatedChange(h, s, MarkConsumed(s, op.id, op.now));
    }
    match op
    case OpIssue(r) => IssueKeepsInvariant(h, s, r);
    case OpFreeze(rid, reason, now) => FreezeKeepsInvariant(h, s, rid, reason, now);
    case OpAuthenticate(id, digest, cred, count, r, now) =>
      if ConsumeError(s, id, digest, now).None? {
        IssueWithCredentialKeepsInvariant(h, MarkConsumed(s, id, now), cred, count, r);
      }
    case OpRegister(id, digest, c, now) =>
      if ConsumeError(s, id, digest, now).None? {
        EnrolKeepsInvariant(h, MarkConsumed(s, id, now), c);
      }
    case OpRecover(id, digest, e, cred, count, r, rid, now) =>
      if ConsumeError(s, id, digest, now).None? {
        ThawKeepsInvariant(h, MarkConsumed(s, id, now), e, cred, count, r, rid);
      }
    case _ =>
      UnrelatedChange(h, s, Apply(h, s, op));
  }

  lemma {:induction false} InvariantHolds(h: Hash<AuditBody>, ops: seq<Op>)
    ensures Invariant(h, Run(h, ops))
  {
    if ops == [] {
      assert Run(h, ops) == INITIAL;
    } else {
      InvariantHolds(h, ops[..|ops| - 1]);
      ApplyKeepsInvariant(h, Run(h, ops[..|ops| - 1]), ops[|ops| - 1]);
    }
  }
}
