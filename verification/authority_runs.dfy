/** What holds across whole runs of the authority repository. */
module AuthorityRuns {
  import opened Outcomes
  import opened HashChain
  import opened Authority

  // ----- What every step keeps --------------------------------------------------

  /** A lease's terms never change; it can only end, and only once. */
  ghost predicate LeaseContinues(a: Lease, b: Lease) {
    && b == a.(revokedAt := b.revokedAt, revocationReason := b.revocationReason)
    && (a.revokedAt.Some? ==> b == a)
  }

  ghost predicate LeasesContinue(a: map<string, Lease>, b: map<string, Lease>) {
    forall k :: k in a ==> k in b && LeaseContinues(a[k], b[k])
  }

  /** A challenge's content never changes; it can only be consumed, once. */
  ghost predicate ChallengesContinue(a: map<string, Challenge>, b: map<string, Challenge>) {
    forall k :: k in a ==>
      && k in b
      && b[k] == a[k].(consumedAt := b[k].consumedAt)
      && (a[k].consumedAt.Some? ==> b[k] == a[k])
  }

  ghost predicate AdmissionsContinue(a: map<string, Admission>, b: map<string, Admission>) {
    forall k :: k in a ==> k in b && b[k] == a[k]
  }

  ghost predicate Continues(s: State, t: State) {
    && s.authorityEpoch <= t.authorityEpoch
    && s.freezeEpoch <= t.freezeEpoch
    && LeasesContinue(s.leases, t.leases)
    && ChallengesContinue(s.challenges, t.challenges)
    && AdmissionsContinue(s.interactions, t.interactions)
    && s.audit <= t.audit
  }

  lemma ContinuesTransitive(s: State, t: State, u: State)
    requires Continues(s, t) && Continues(t, u)
    ensures Continues(s, u)
  {
  }

  lemma RevokeContinues(leases: map<string, Lease>, active: Option<string>, now: int, reason: string)
    requires LiveIsActive(leases, active)
    ensures LeasesContinue(leases, RevokeIn(leases, active, now, reason))
  {
  }

  lemma IssueContinues(h: Hash<AuditBody>, s: State, r: LeaseRequest)
    requires Invariant(h, s)
    ensures Continues(s, IssueLease(h, s, r).state)
  {
    hide RevokeIn, LiveIsActive, EpochsBounded, Chained, Count;
    RevokeContinues(s.leases, s.activeLeaseId, r.issuedAt, "replaced");
  }

  lemma FreezeContinues(h: Hash<AuditBody>, s: State, requestId: string, reason: string, now: int)
    requires Invariant(h, s)
    ensures Continues(s, Freeze(h, s, requestId, reason, now))
  {
  }

  lemma ConsumeContinues(h: Hash<AuditBody>, s: State, id: string, digest: string, now: int)
    requires Invariant(h, s) && ConsumeError(s, id, digest, now).None?
    ensures Continues(s, MarkConsumed(s, id, now)) && Invariant(h, MarkConsumed(s, id, now))
  {
  }

  lemma IssueWithCredentialContinues(
    h: Hash<AuditBody>, s: State, credentialId: string, newSignCount: int, r: LeaseRequest)
    requires Invariant(h, s)
    ensures Continues(s, IssueWithCredential(h, s, credentialId, newSignCount, r).state)
  {
    if CredentialUsable(s, credentialId, newSignCount) {
      UnrelatedChange(h, s, AdvanceCounter(s, credentialId, newSignCount));
      IssueContinues(h, AdvanceCounter(s, credentialId, newSignCount), r);
    }
    hide Invariant, IssueLease;
  }

  lemma ThawContinues(h: Hash<AuditBody>, s: State, expectedFreezeEpoch: int, credentialId: string,
                      newSignCount: int, r: LeaseRequest, recoveryId: string)
    requires Invariant(h, s)
    ensures Continues(s, Thaw(h, s, expectedFreezeEpoch, credentialId, newSignCount, r, recoveryId).state)
  {
    if CredentialUsable(s, credentialId, newSignCount) {
      UnrelatedChange(h, s, AdvanceCounter(s, credentialId, newSignCount).(frozen := false));
      IssueContinues(h, AdvanceCounter(s, credentialId, newSignCount).(frozen := false), r);
    }
    hide Invariant, IssueLease;
  }

  /** Whatever a method does after consuming its challenge builds on that. */
  lemma AfterConsumption(h: Hash<AuditBody>, s: State, op: Op)
    requires op.Consuming()
    requires Invariant(h, s) && ConsumeError(s, op.id, op.digest, op.now).None?
    ensures Continues(MarkConsumed(s, op.id, op.now), Apply(h, s, op))
  {
    hide Invariant, IssueWithCredential, Thaw;
    ConsumeContinues(h, s, op.id, op.digest, op.now);
    var t := MarkConsumed(s, op.id, op.now);
    if op.OpAuthenticate? {
      IssueWithCredentialContinues(h, t, op.credentialId, op.newSignCount, op.lease);
    } else if op.OpRecover? {
      ThawContinues(h, t, op.expectedFreezeEpoch, op.credentialId, op.newSignCount, op.lease, op.recoveryId);
    }
  }

  lemma ApplyContinues(h: Hash<AuditBody>, s: State, op: Op)
    requires Invariant(h, s)
    ensures Continues(s, Apply(h, s, op))
  {
    hide Invariant, IssueLease, Freeze, IssueWithCredential, Thaw;
    if op.Consuming() {
      if ConsumeError(s, op.id, op.digest, op.now).None? {
        ConsumeContinues(h, s, op.id, op.digest, op.now);
        AfterConsumption(h, s, op);
        ContinuesTransitive(s, MarkConsumed(s, op.id, op.now), Apply(h, s, op));
      }
    } else if op.OpIssue? {
      IssueContinues(h, s, op.lease);
    } else if op.OpFreeze? {
      FreezeContinues(h, s, op.requestId, op.reason, op.now);
    }
  }

  /** The state before step `i` of a run. */
  function At(h: Hash<AuditBody>, ops: seq<Op>, i: nat): State
    requires i <= |ops|
  {
    Run(h, ops[..i])
  }

  lemma StepAt(h: Hash<AuditBody>, ops: seq<Op>, i: nat)
    requires i < |ops|
    ensures At(h, ops, i + 1) == Apply(h, At(h, ops, i), ops[i])
    ensures Invariant(h, At(h, ops, i)) && Invariant(h, At(h, ops, i + 1))
  {
    assert ops[..i + 1][..i] == ops[..i];
    InvariantHolds(h, ops[..i]);
    InvariantHolds(h, ops[..i + 1]);
  }

  lemma {:induction false} RunContinues(h: Hash<AuditBody>, ops: seq<Op>, i: nat, j: nat)
    requires i <= j <= |ops|
    ensures Continues(At(h, ops, i), At(h, ops, j))
    decreases j - i
  {
    if i < j {
      RunContinues(h, ops, i, j - 1);
      StepAt(h, ops, j - 1);
      ApplyContinues(h, At(h, ops, j - 1), ops[j - 1]);
      ContinuesTransitive(At(h, ops, i), At(h, ops, j - 1), At(h, ops, j));
    }
  }

  // ----- Leases and admissions ----------------------------------------------------

  /** In every reachable state at most one lease is unrevoked; it is the active
      one, carries the current epoch, and does not exist while frozen. */
  lemma AtMostOneLiveLease(h: Hash<AuditBody>, ops: seq<Op>, k: string)
    requires var s := Run(h, ops); k in s.leases && s.leases[k].revokedAt.None?
    ensures var s := Run(h, ops);
      s.activeLeaseId == Some(k) && s.leases[k].authorityEpoch == s.authorityEpoch && !s.frozen
  {
    InvariantHolds(h, ops);
  }

  /** Step `i` of the run is an admission that is granted and not a repeat. */
  ghost predicate FreshAdmission(h: Hash<AuditBody>, ops: seq<Op>, i: nat)
    requires i < |ops|
  {
    && ops[i].OpAdmit?
    && ops[i].request.interactionId !in At(h, ops, i).interactions
    && Admit(At(h, ops, i), ops[i].request).result.Ok?
  }

  /** No fresh admission ever cites a lease older than the latest freeze or lease
      replacement: whatever step moved the epoch, every lease known before it is
      unusable from then on. */
  lemma NoAdmissionUnderStaleLease(h: Hash<AuditBody>, ops: seq<Op>, i: nat, j: nat)
    requires i < j < |ops|
    requires At(h, ops, i + 1).authorityEpoch != At(h, ops, i).authorityEpoch
    requires FreshAdmission(h, ops, j)
    ensures ops[j].request.leaseId !in At(h, ops, i).leases
    ensures At(h, ops, j).activeLeaseId == Some(ops[j].request.leaseId)
  {
    StepAt(h, ops, i);
    StepAt(h, ops, j);
    RunContinues(h, ops, i, i + 1);
    RunContinues(h, ops, i + 1, j);
    RunContinues(h, ops, i, j);
  }

  /** A freeze, an issued lease and nothing else move the epoch. */
  lemma EpochMovesOnlyWithLeasesAndFreezes(h: Hash<AuditBody>, ops: seq<Op>, i: nat)
    requires i < |ops|
    ensures var s, t := At(h, ops, i), At(h, ops, i + 1);
      t.authorityEpoch == s.authorityEpoch + (|t.leases| - |s.leases|) + (t.freezeEpoch - s.freezeEpoch)
  {
    StepAt(h, ops, i);
  }

  /** A granted admission is stored under its interaction and never altered; asking
      again with the same digest returns the same receipt, marked duplicate. */
  lemma AdmissionsArePermanent(h: Hash<AuditBody>, ops: seq<Op>, i: nat, j: nat, repeat: AdmissionRequest)
    requires i < j <= |ops| && FreshAdmission(h, ops, i)
    requires repeat.interactionId == ops[i].request.interactionId
    requires repeat.requestDigest == ops[i].request.requestDigest
    ensures var granted := Admit(At(h, ops, i), ops[i].request).result.value;
      Admit(At(h, ops, j), repeat) == After(At(h, ops, j), Ok(granted.(duplicate := true)))
  {
    StepAt(h, ops, i);
    RunContinues(h, ops, i + 1, j);
  }

  // ----- Challenges ---------------------------------------------------------------

  /** Step `i` consumes challenge `id`. */
  ghost predicate ConsumesAt(h: Hash<AuditBody>, ops: seq<Op>, i: nat, id: string)
    requires i < |ops|
  {
    var op := ops[i];
    && op.Consuming()
    && op.id == id
    && ConsumeError(At(h, ops, i), id, op.digest, op.now).None?
  }

  /** No challenge is consumed twice in any run. */
  lemma ChallengeConsumedAtMostOnce(h: Hash<AuditBody>, ops: seq<Op>, i: nat, j: nat, id: string)
    requires i < |ops| && j < |ops| && ConsumesAt(h, ops, i, id) && ConsumesAt(h, ops, j, id)
    ensures i == j
  {
    if i < j {
      ConsumedStays(h, ops, i, j, id);
    } else if j < i {
      ConsumedStays(h, ops, j, i, id);
    }
  }

  lemma ConsumedStays(h: Hash<AuditBody>, ops: seq<Op>, i: nat, j: nat, id: string)
    requires i < j <= |ops| && ConsumesAt(h, ops, i, id)
    ensures id in At(h, ops, j).challenges && At(h, ops, j).challenges[id].consumedAt.Some?
  {
    StepAt(h, ops, i);
    var s := At(h, ops, i);
    assert Continues(MarkConsumed(s, id, ops[i].now), Apply(h, s, ops[i])) by {
      ConsumeContinues(h, s, id, ops[i].digest, ops[i].now);
      AfterConsumption(h, s, ops[i]);
    }
    RunContinues(h, ops, i + 1, j);
  }
}
