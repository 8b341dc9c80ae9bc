/** What the authority's audit log alone tells: the epochs always, the freeze
    flag exactly as long as no recovery stumbles over a reused lease id. */
module AuthorityReplay {
  import opened Outcomes
  import opened HashChain
  import opened Authority
  import opened AuthorityRuns

  /** The freeze flag as the log shows it: the latest freeze or recovery decides. */
  function FrozenByLog(audit: seq<Link<AuditBody>>): bool {
    if audit == [] then false
    else
      match audit[|audit| - 1].body
      case AuthorityFrozen(_, _, _, _) => true
      case AuthorityRecovered(_, _, _) => false
      case _ => FrozenByLog(audit[..|audit| - 1])
  }

  /** Both epochs can be recounted from the log in every reachable state. */
  lemma LogReplaysEpochs(h: Hash<AuditBody>, ops: seq<Op>)
    ensures var s := Run(h, ops);
      && s.freezeEpoch == 1 + Count(s.audit, Freezing)
      && s.authorityEpoch == 1 + Count(s.audit, Freezing) + Count(s.audit, Issue)
      && |s.leases| == Count(s.audit, Issue)
  {
    InvariantHolds(h, ops);
  }

  lemma FrozenByLogAppend(h: Hash<AuditBody>, audit: seq<Link<AuditBody>>, body: AuditBody)
    ensures FrozenByLog(Append(h, audit, body)) ==
      match body
      case AuthorityFrozen(_, _, _, _) => true
      case AuthorityRecovered(_, _, _) => false
      case _ => FrozenByLog(audit)
  {
  }

  ghost predicate InStep(s: State) {
    s.frozen == FrozenByLog(s.audit)
  }

  /** A recovery that would clear the flag and then fail to issue its lease,
      because the lease id is taken. Everything here is known before the call. */
  predicate LosesRecovery(s: State, op: Op) {
    && op.OpRecover?
    && ConsumeError(s, op.id, op.digest, op.now).None?
    && s.challenges[op.id].purpose == RECOVERY
    && s.frozen && s.freezeEpoch == op.expectedFreezeEpoch
    && CredentialUsable(s, op.credentialId, op.newSignCount)
    && op.lease.leaseId in s.leases
  }

  lemma IssueStaysInStep(h: Hash<AuditBody>, s: State, r: LeaseRequest)
    ensures FrozenByLog(IssueLease(h, s, r).state.audit) == FrozenByLog(s.audit)
    ensures IssueLease(h, s, r).state.frozen == s.frozen
  {
  }

  /** The log keeps showing the flag across a step exactly when the step is not
      such a recovery. */
  lemma FlagReplaysUnlessRecoveryLost(h: Hash<AuditBody>, s: State, op: Op)
    requires InStep(s)
    ensures InStep(Apply(h, s, op)) <==> !LosesRecovery(s, op)
  {
    match op
    case OpIssue(r) => IssueStaysInStep(h, s, r);
    case OpFreeze(rid, reason, now) =>
      FrozenByLogAppend(h, s.audit, AuthorityFrozen(s.authorityEpoch + 1, s.freezeEpoch + 1, reason, rid));
      hide FrozenByLog, RevokeIn, Append;
    case OpAuthenticate(id, digest, cred, count, r, now) =>
      if ConsumeError(s, id, digest, now).None? && CredentialUsable(s, cred, count) {
        IssueStaysInStep(h, AdvanceCounter(MarkConsumed(s, id, now), cred, count), r);
      }
      hide FrozenByLog, IssueLease;
    case OpRegister(id, digest, c, now) =>
      FrozenByLogAppend(h, s.audit, CredentialEnrolled(c.commanderId, c.credentialId, c.publicKey, c.createdAt));
      hide FrozenByLog, Append;
    case OpRecover(id, digest, e, cred, count, r, rid, now) =>
      RecoverInStepUnlessLost(h, s, op);
    case _ =>
  }

  lemma RecoverInStepUnlessLost(h: Hash<AuditBody>, s: State, op: Op)
    requires InStep(s) && op.OpRecover?
    ensures InStep(Apply(h, s, op)) <==> !LosesRecovery(s, op)
  {
    hide FrozenByLog, Append, RevokeIn;
    if ConsumeError(s, op.id, op.digest, op.now).None? && CredentialUsable(s, op.credentialId, op.newSignCount) {
      var t := AdvanceCounter(MarkConsumed(s, op.id, op.now), op.credentialId, op.newSignCount).(frozen := false);
      IssueStaysInStep(h, t, op.lease);
      var issued := IssueLease(h, t, op.lease);
      if issued.result.Ok? {
        FrozenByLogAppend(h, issued.state.audit,
          AuthorityRecovered(issued.result.value.authorityEpoch, op.expectedFreezeEpoch, op.recoveryId));
      }
    }
  }

  // ----- Fresh lease ids --------------------------------------------------------

  function RequestedLease(op: Op): Option<string> {
    if op.OpIssue? || op.OpAuthenticate? || op.OpRecover? then Some(op.lease.leaseId) else None
  }

  /** No two requests of the run carry the same lease id. */
  ghost predicate FreshLeaseIds(ops: seq<Op>) {
    forall i, j :: 0 <= i < j < |ops| && RequestedLease(ops[i]).Some? ==> RequestedLease(ops[i]) != RequestedLease(ops[j])
  }

  lemma NewLeasesAreRequested(h: Hash<AuditBody>, s: State, op: Op, k: string)
    requires k in Apply(h, s, op).leases && k !in s.leases
    requires Invariant(h, s)
    ensures RequestedLease(op) == Some(k)
  {
    hide Append, Chained, Count;
    assert LiveIsActive(s.leases, s.activeLeaseId);
    assert forall now, reason :: RevokeIn(s.leases, s.activeLeaseId, now, reason).Keys == s.leases.Keys;
  }

  lemma {:induction false} LeasesWereRequested(h: Hash<AuditBody>, ops: seq<Op>, k: string) returns (i: nat)
    requires k in Run(h, ops).leases
    ensures i < |ops| && RequestedLease(ops[i]) == Some(k)
  {
    var n := |ops| - 1;
    if k in Run(h, ops[..n]).leases {
      i := LeasesWereRequested(h, ops[..n], k);
    } else {
      i := n;
      InvariantHolds(h, ops[..n]);
      NewLeasesAreRequested(h, Run(h, ops[..n]), ops[n], k);
    }
  }

  /** With fresh lease ids, which the service mints, the log alone replays the
      freeze flag in every reachable state, and freezes outnumber recoveries by one
      exactly while frozen. */
  lemma {:induction false} LogReplaysFreezeFlag(h: Hash<AuditBody>, ops: seq<Op>)
    requires FreshLeaseIds(ops)
    ensures var s := Run(h, ops);
      && s.frozen == FrozenByLog(s.audit)
      && Balanced(s)
  {
    if ops != [] {
      var n := |ops| - 1;
      LogReplaysFreezeFlag(h, ops[..n]);
      var s := Run(h, ops[..n]);
      if LosesRecovery(s, ops[n]) {
        var i := LeasesWereRequested(h, ops[..n], ops[n].lease.leaseId);
        assert false;
      }
      FlagReplaysUnlessRecoveryLost(h, s, ops[n]);
      FreezesBalanceRecoveries(h, s, ops[n]);
    }
  }

  ghost predicate Balanced(s: State) {
    Count(s.audit, Freezing) == Count(s.audit, Recovery) + (if s.frozen then 1 else 0)
  }

  lemma IssueCounts(h: Hash<AuditBody>, s: State, r: LeaseRequest)
    ensures var t := IssueLease(h, s, r).state;
      && Count(t.audit, Freezing) == Count(s.audit, Freezing)
      && Count(t.audit, Recovery) == Count(s.audit, Recovery)
      && t.frozen == s.frozen
  {
  }

  lemma FreezesBalanceRecoveries(h: Hash<AuditBody>, s: State, op: Op)
    requires !LosesRecovery(s, op) && Balanced(s)
    ensures Balanced(Apply(h, s, op))
  {
    match op
    case OpFreeze(rid, reason, now) =>
      AppendCounts(h, s.audit, AuthorityFrozen(s.authorityEpoch + 1, s.freezeEpoch + 1, reason, rid));
      hide Count, RevokeIn, Append;
    case OpIssue(r) =>
      IssueCounts(h, s, r);
      hide Count, IssueLease;
    case OpAuthenticate(id, digest, cred, count, r, now) =>
      if ConsumeError(s, id, digest, now).None? && CredentialUsable(s, cred, count) {
        IssueCounts(h, AdvanceCounter(MarkConsumed(s, id, now), cred, count), r);
      }
      hide Count, IssueLease;
    case OpRegister(id, digest, c, now) =>
      AppendCounts(h, s.audit, CredentialEnrolled(c.commanderId, c.credentialId, c.publicKey, c.createdAt));
      hide Count, Append;
    case OpRecover(_, _, _, _, _, _, _, _) =>
      RecoverBalances(h, s, op);
    case _ =>
      hide Count;
  }

  lemma RecoverBalances(h: Hash<AuditBody>, s: State, op: Op)
    requires op.OpRecover? && !LosesRecovery(s, op) && Balanced(s)
    ensures Balanced(Apply(h, s, op))
  {
    hide Count, Append, RevokeIn;
    if ConsumeError(s, op.id, op.digest, op.now).None? && CredentialUsable(s, op.credentialId, op.newSignCount) {
      var t := AdvanceCounter(MarkConsumed(s, op.id, op.now), op.credentialId, op.newSignCount).(frozen := false);
      IssueCounts(h, t, op.lease);
      var issued := IssueLease(h, t, op.lease);
      if issued.result.Ok? {
        AppendCounts(h, issued.state.audit,
          AuthorityRecovered(issued.result.value.authorityEpoch, op.expectedFreezeEpoch, op.recoveryId));
      }
    }
  }

  lemma AppendCounts(h: Hash<AuditBody>, audit: seq<Link<AuditBody>>, body: AuditBody)
    ensures forall k :: Count(Append(h, audit, body), k) == Count(audit, k) + (if KindOf(body) == k then 1 else 0)
  {
  }

  // ----- Why freshness is needed --------------------------------------------------

  const LEASE := LeaseRequest("lease", "commander", "guild", "scope", "key", 0, 10)
  const CREDENTIAL := Credential("key", "commander", "public", 0, 0, None)

  function SampleChallenge(id: string, purpose: string): Challenge {
    Challenge(id, id, id, purpose, "commander", "digest", None, 0, 10, None)
  }

  /** A run that recovers with a lease id already used. */
  function ReusedLease(): seq<Op> {
    [OpCreate(SampleChallenge("first", "bootstrap-registration")),
     OpCreate(SampleChallenge("second", RECOVERY)),
     OpRegister("first", "first", CREDENTIAL, 1),
     OpIssue(LEASE),
     OpFreeze("request", "operator-request", 2),
     OpRecover("second", "second", 2, "key", 0, LEASE, "recovery", 3)]
  }

  /** After it the authority is thawed while its log still reads frozen. */
  lemma ReusedLeaseHidesThaw(h: Hash<AuditBody>)
    ensures var s := Run(h, ReusedLease());
      !s.frozen && FrozenByLog(s.audit) && Count(s.audit, Freezing) == Count(s.audit, Recovery) + 1
  {
    var ops := ReusedLease();
    FiveSteps(h, ops);
    FreshPrefix(h);
    BeforeRecovery(h);
    hide Run;
    RecoveryLost(h, Run(h, ops[..5]));
  }

  lemma RecoveryLost(h: Hash<AuditBody>, s: State)
    requires AboutToRecover(s)
    ensures var op := ReusedLease()[5];
            LosesRecovery(s, op) && !Apply(h, s, op).frozen && Apply(h, s, op).audit == s.audit && FrozenByLog(s.audit)
  {
  }

  /** Enrolled, with one challenge left. */
  ghost predicate Prepared(s: State) {
    && !s.frozen && s.freezeEpoch == 1 && s.leases == map[] && s.activeLeaseId.None?
    && s.credentials == map["key" := CREDENTIAL]
    && "second" in s.challenges && s.challenges["second"] == SampleChallenge("second", RECOVERY)
  }

  lemma AfterRegistration(h: Hash<AuditBody>)
    ensures var ops := ReusedLease(); Prepared(Apply(h, Apply(h, Apply(h, INITIAL, ops[0]), ops[1]), ops[2]))
  {
    var ops := ReusedLease();
    var c1, c2 := SampleChallenge("first", "bootstrap-registration"), SampleChallenge("second", RECOVERY);
    var s2 := Apply(h, Apply(h, INITIAL, ops[0]), ops[1]);
    assert s2 == INITIAL.(challenges := map["first" := c1, "second" := c2]);
    hide Append;
    var s3 := Apply(h, s2, ops[2]);
    assert s3.credentials == map["key" := CREDENTIAL];
  }

  /** Where the run stands when the recovery begins. */
  ghost predicate AboutToRecover(s: State) {
    && s.frozen && s.freezeEpoch == 2 && "lease" in s.leases && s.credentials == map["key" := CREDENTIAL]
    && "second" in s.challenges && s.challenges["second"] == SampleChallenge("second", RECOVERY)
    && s.audit != [] && s.audit[|s.audit| - 1].body.AuthorityFrozen?
  }

  lemma IssueThenFreeze(h: Hash<AuditBody>, s: State)
    requires Prepared(s)
    ensures AboutToRecover(Apply(h, Apply(h, s, ReusedLease()[3]), ReusedLease()[4]))
  {
    var issued := IssueLease(h, s, LEASE).state;
    assert !issued.frozen && issued.freezeEpoch == 1 && "lease" in issued.leases;
    assert issued.credentials == s.credentials && issued.challenges == s.challenges;
  }

  lemma BeforeRecovery(h: Hash<AuditBody>)
    ensures AboutToRecover(Run(h, ReusedLease()[..5]))
  {
    var ops := ReusedLease();
    FiveSteps(h, ops);
    AfterRegistration(h);
    hide Run, Prepared, AboutToRecover, Apply;
    IssueThenFreeze(h, Apply(h, Apply(h, Apply(h, INITIAL, ops[0]), ops[1]), ops[2]));
  }

  lemma FiveSteps(h: Hash<AuditBody>, ops: seq<Op>)
    requires |ops| == 6
    ensures Run(h, ops[..5]) == Apply(h, Apply(h, Apply(h, Apply(h, Apply(h, INITIAL, ops[0]), ops[1]), ops[2]), ops[3]), ops[4])
    ensures Run(h, ops) == Apply(h, Run(h, ops[..5]), ops[5])
  {
    hide Apply;
    forall i | 0 <= i < 6 ensures Run(h, ops[..i + 1]) == Apply(h, Run(h, ops[..i]), ops[i]) {
      assert ops[..i + 1][..i] == ops[..i];
    }
    assert ops[..6] == ops;
  }

  /** Its first five steps are an ordinary run with fresh lease ids. */
  lemma FreshPrefix(h: Hash<AuditBody>)
    ensures Balanced(Run(h, ReusedLease()[..5]))
  {
    LogReplaysFreezeFlag(h, ReusedLease()[..5]);
  }
}
