/** When each repository operation grants what it is asked for, and what it then
    leaves behind, written out over the stored records. */
module AuthorityDecisions {
  import opened Outcomes
  import opened HashChain
  import opened Authority
  import opened AuthorityRuns

  /** An unknown interaction is admitted exactly when the authority is not frozen
      and the request names an unrevoked, unexpired lease of the current epoch held
      by the same commander for the same guild and channels. */
  lemma AdmitsExactly(s: State, r: AdmissionRequest)
    requires r.interactionId !in s.interactions
    ensures Admit(s, r).result.Ok? <==>
      && !s.frozen && r.leaseId in s.leases
      && s.leases[r.leaseId].revokedAt.None?
      && s.leases[r.leaseId].authorityEpoch == s.authorityEpoch == r.authorityEpoch
      && s.leases[r.leaseId].commanderId == r.commanderId
      && s.leases[r.leaseId].guildId == r.guildId
      && s.leases[r.leaseId].channelScope == r.channelScope
      && r.receivedAt < s.leases[r.leaseId].expiresAt
    ensures Admit(s, r).result.Ok? ==>
      && var granted := Admit(s, r).result.value;
      && granted.interactionId == r.interactionId && granted.authorityEpoch == r.authorityEpoch
      && granted.leaseId == s.leases[r.leaseId].leaseId && granted.workflowId == "discord-" + r.interactionId
      && !granted.duplicate
      && Admit(s, r).state == s.(interactions := s.interactions[r.interactionId := Admission(r.requestDigest, granted)])
    ensures Admit(s, r).result.Err? ==> Admit(s, r).state == s
  {
  }

  /** A known interaction never changes anything: the same request gets its receipt
      again, a different one is denied. */
  lemma RepeatsChangeNothing(s: State, r: AdmissionRequest)
    requires r.interactionId in s.interactions
    ensures Admit(s, r).state == s
    ensures Admit(s, r).result ==
      if s.interactions[r.interactionId].requestDigest == r.requestDigest
      then Ok(s.interactions[r.interactionId].receipt.(duplicate := true)) else Err(AdmissionDenied)
  {
  }

  /** At every step of every run: an admission is freshly granted exactly under a
      live, unexpired lease for that commander, guild and channel scope. */
  lemma FreshAdmissionsAreAuthorized(h: Hash<AuditBody>, ops: seq<Op>, i: nat)
    requires i < |ops| && ops[i].OpAdmit?
    ensures FreshAdmission(h, ops, i) <==>
      var s, r := At(h, ops, i), ops[i].request;
      && r.interactionId !in s.interactions && !s.frozen
      && s.activeLeaseId == Some(r.leaseId) && r.leaseId in s.leases
      && s.authorityEpoch == r.authorityEpoch
      && s.leases[r.leaseId].commanderId == r.commanderId && s.leases[r.leaseId].guildId == r.guildId
      && s.leases[r.leaseId].channelScope == r.channelScope
      && r.receivedAt < s.leases[r.leaseId].expiresAt
  {
    StepAt(h, ops, i);
    hide Apply, EpochsCounted, Chained;
  }

  /** A challenge is consumed exactly when it is known under that digest, unused and
      not past its expiry; then it is used from now on, and nothing else changes. */
  lemma ConsumesExactly(s: State, id: string, digest: string, now: int)
    ensures ConsumeChallenge(s, id, digest, now).result.Ok? <==>
      id in s.challenges && s.challenges[id].digest == digest && s.challenges[id].consumedAt.None?
      && now <= s.challenges[id].expiresAt
    ensures var after := ConsumeChallenge(s, id, digest, now);
      if after.result.Ok?
      then after.state == s.(challenges := s.challenges[id := s.challenges[id].(consumedAt := Some(now))])
      else after.state == s
    ensures id in s.challenges && s.challenges[id].digest == digest && s.challenges[id].consumedAt.Some? ==>
      ConsumeChallenge(s, id, digest, now).result == Err(ChallengeConsumed)
  {
  }

  /** A challenge is stored exactly when neither its id nor its digest was seen. */
  lemma CreatesExactly(s: State, c: Challenge)
    ensures CreateChallenge(s, c).result.Ok? <==>
      forall id :: id in s.challenges ==> id != c.challengeId && s.challenges[id].digest != c.digest
    ensures CreateChallenge(s, c).state ==
      if CreateChallenge(s, c).result.Ok? then s.(challenges := s.challenges[c.challengeId := c]) else s
  {
  }

  // ----- Leases -------------------------------------------------------------------

  /** `t` is `s` with a new lease of the requested terms in place of the active one. */
  ghost predicate LeaseGranted(s: State, t: State, r: LeaseRequest) {
    && t.authorityEpoch == s.authorityEpoch + 1 && t.activeLeaseId == Some(r.leaseId)
    && t.leases.Keys == s.leases.Keys + {r.leaseId} && r.leaseId !in s.leases
    && t.leases[r.leaseId] == Lease(r.leaseId, s.authorityEpoch + 1, r.commanderId, r.guildId, r.channelScope,
                                    r.credentialId, r.issuedAt, r.expiresAt, None, "")
    && forall k :: k in s.leases ==>
         t.leases[k] == if s.leases[k].revokedAt.Some? then s.leases[k]
                        else s.leases[k].(revokedAt := Some(r.issuedAt), revocationReason := "replaced")
  }

  /** Only the leases, the epoch and the active lease matter to it. */
  lemma SameLeaseGranted(s: State, s': State, t: State, t': State, r: LeaseRequest)
    requires LeaseGranted(s, t, r) && s'.leases == s.leases && s'.authorityEpoch == s.authorityEpoch
    requires t'.leases == t.leases && t'.authorityEpoch == t.authorityEpoch && t'.activeLeaseId == t.activeLeaseId
    ensures LeaseGranted(s', t', r)
  {
  }

  lemma IssuesExactly(h: Hash<AuditBody>, s: State, r: LeaseRequest)
    requires Invariant(h, s)
    ensures var after := IssueLease(h, s, r);
      && (after.result.Ok? <==> !s.frozen && r.leaseId !in s.leases)
      && (after.result.Err? ==> after.state == s)
      && (after.result.Ok? ==>
            && LeaseGranted(s, after.state, r) && after.result.value == after.state.leases[r.leaseId]
            && after.state.freezeEpoch == s.freezeEpoch && !after.state.frozen
            && after.state.challenges == s.challenges && after.state.credentials == s.credentials
            && after.state.interactions == s.interactions)
  {
    hide Append, EpochsCounted, Chained;
  }

  /** A usable credential, whose counter has not gone back (section 6.1.1 of W3C Web
      Authentication Level 2). */
  predicate CounterHolds(s: State, credentialId: string, newSignCount: int) {
    credentialId in s.credentials && s.credentials[credentialId].revokedAt.None?
    && s.credentials[credentialId].signCount <= newSignCount
  }

  predicate ChallengeOpen(s: State, id: string, digest: string, now: int) {
    id in s.challenges && s.challenges[id].digest == digest && s.challenges[id].consumedAt.None?
    && now <= s.challenges[id].expiresAt
  }

  /** Authentication issues a lease exactly with an open challenge and a usable
      credential while not frozen; the challenge is spent and the counter advanced
      whenever those two checks pass, also if issuing then fails. */
  lemma AuthenticatesExactly(
    h: Hash<AuditBody>, s: State, id: string, digest: string, cred: string, count: int, r: LeaseRequest, now: int)
    requires Invariant(h, s)
    ensures var after := CompleteAuthentication(h, s, id, digest, cred, count, r, now);
      && (after.result.Ok? <==>
            ChallengeOpen(s, id, digest, now) && CounterHolds(s, cred, count) && !s.frozen && r.leaseId !in s.leases)
      && (after.result.Ok? ==> LeaseGranted(s, after.state, r) && !after.state.frozen)
      && (!ChallengeOpen(s, id, digest, now) ==> after.state == s)
      && (ChallengeOpen(s, id, digest, now) ==> after.state.challenges[id].consumedAt == Some(now))
      && after.state.credentials ==
           if ChallengeOpen(s, id, digest, now) && CounterHolds(s, cred, count)
           then s.credentials[cred := s.credentials[cred].(signCount := count)] else s.credentials
  {
    if ChallengeOpen(s, id, digest, now) {
      var t := MarkConsumed(s, id, now);
      UnrelatedChange(h, s, t);
      hide Invariant, IssueWithCredential, LeaseGranted;
      IssuesWithCredentialExactly(h, t, cred, count, r);
      var issued := IssueWithCredential(h, t, cred, count, r);
      if issued.result.Ok? { SameLeaseGranted(t, s, issued.state, issued.state, r); }
    }
  }

  lemma IssuesWithCredentialExactly(h: Hash<AuditBody>, s: State, cred: string, count: int, r: LeaseRequest)
    requires Invariant(h, s)
    ensures var after := IssueWithCredential(h, s, cred, count, r);
      && (after.result.Ok? <==> CounterHolds(s, cred, count) && !s.frozen && r.leaseId !in s.leases)
      && (after.result.Ok? ==> LeaseGranted(s, after.state, r) && !after.state.frozen)
      && after.state.challenges == s.challenges
      && after.state.credentials ==
           if CounterHolds(s, cred, count) then s.credentials[cred := s.credentials[cred].(signCount := count)]
           else s.credentials
  {
    if CounterHolds(s, cred, count) {
      var t := AdvanceCounter(s, cred, count);
      UnrelatedChange(h, s, t);
      hide Invariant, IssueLease, LeaseGranted;
      IssuesExactly(h, t, r);
      if !s.frozen && r.leaseId !in s.leases { SameLeaseGranted(t, s, IssueLease(h, t, r).state, IssueLease(h, t, r).state, r); }
    }
  }

  /** A recovery succeeds exactly with an open recovery challenge, under the freeze
      epoch it names, with a usable credential and a new lease id; then the
      authority is thawed under a new lease. */
  lemma RecoversExactly(
    h: Hash<AuditBody>, s: State, id: string, digest: string, epoch: int, cred: string, count: int, r: LeaseRequest,
    rid: string, now: int)
    requires Invariant(h, s)
    ensures var after := CompleteRecovery(h, s, id, digest, epoch, cred, count, r, rid, now);
      && (after.result.Ok? <==>
            && ChallengeOpen(s, id, digest, now) && s.challenges[id].purpose == "recovery"
            && s.frozen && s.freezeEpoch == epoch && CounterHolds(s, cred, count) && r.leaseId !in s.leases)
      && (after.result.Ok? ==>
            && LeaseGranted(s, after.state, r) && !after.state.frozen && after.state.freezeEpoch == s.freezeEpoch
            && after.state.credentials == s.credentials[cred := s.credentials[cred].(signCount := count)]
            && after.state.audit != [] && var n := |after.state.audit| - 1;
               after.state.audit[n].body == AuthorityRecovered(s.authorityEpoch + 1, epoch, rid))
      && (ChallengeOpen(s, id, digest, now) ==>
            id in after.state.challenges && after.state.challenges[id].consumedAt == Some(now))
      && (!ChallengeOpen(s, id, digest, now) ==> after.state == s)
  {
    if ChallengeOpen(s, id, digest, now) {
      var t := MarkConsumed(s, id, now);
      UnrelatedChange(h, s, t);
      hide Invariant, Thaw, LeaseGranted;
      if s.frozen {
        ThawsExactly(h, t, epoch, cred, count, r, rid);
        var thawed := Thaw(h, t, epoch, cred, count, r, rid);
        if thawed.result.Ok? { SameLeaseGranted(t, s, thawed.state, thawed.state, r); }
      }
    }
  }

  lemma ThawsExactly(
    h: Hash<AuditBody>, s: State, epoch: int, cred: string, count: int, r: LeaseRequest, rid: string)
    requires Invariant(h, s) && s.frozen
    ensures var after := Thaw(h, s, epoch, cred, count, r, rid);
      && (after.result.Ok? <==> CounterHolds(s, cred, count) && r.leaseId !in s.leases)
      && after.state.challenges == s.challenges
      && (after.result.Ok? ==>
            && LeaseGranted(s, after.state, r) && !after.state.frozen && after.state.freezeEpoch == s.freezeEpoch
            && after.state.credentials == s.credentials[cred := s.credentials[cred].(signCount := count)]
            && after.state.audit != [] && var n := |after.state.audit| - 1;
               after.state.audit[n].body == AuthorityRecovered(s.authorityEpoch + 1, epoch, rid))
  {
    if CounterHolds(s, cred, count) {
      var t := AdvanceCounter(s, cred, count).(frozen := false);
      UnrelatedChange(h, s, t);
      hide Invariant, IssueLease, LeaseGranted;
      IssuesExactly(h, t, r);
      if r.leaseId !in s.leases {
        SameLeaseGranted(t, s, IssueLease(h, t, r).state, Thaw(h, s, epoch, cred, count, r, rid).state, r);
      }
    }
  }

  /** Registration enrols a credential exactly with an open challenge and a new id. */
  lemma RegistersExactly(h: Hash<AuditBody>, s: State, id: string, digest: string, c: Credential, now: int)
    ensures var after := CompleteRegistration(h, s, id, digest, c, now);
      && (after.result.Ok? <==> ChallengeOpen(s, id, digest, now) && c.credentialId !in s.credentials)
      && (after.result.Ok? ==> after.state.credentials == s.credentials[c.credentialId := c])
      && (after.result.Err? ==> after.state.credentials == s.credentials)
      && (ChallengeOpen(s, id, digest, now) ==> after.state.challenges[id].consumedAt == Some(now))
      && (!ChallengeOpen(s, id, digest, now) ==> after.state == s)
  {
  }

  /** A freeze ends every lease and advances both epochs; repeating it does nothing. */
  lemma FreezesExactly(h: Hash<AuditBody>, s: State, requestId: string, reason: string, now: int)
    requires Invariant(h, s)
    ensures var t := Freeze(h, s, requestId, reason, now);
      if s.frozen then t == s
      else
        && t.frozen && t.authorityEpoch == s.authorityEpoch + 1 && t.freezeEpoch == s.freezeEpoch + 1
        && t.activeLeaseId.None? && t.leases.Keys == s.leases.Keys
        && (forall k :: k in s.leases ==>
              t.leases[k] == if s.leases[k].revokedAt.Some? then s.leases[k]
                             else s.leases[k].(revokedAt := Some(now), revocationReason := reason))
        && t.challenges == s.challenges && t.credentials == s.credentials && t.interactions == s.interactions
        && |t.audit| == |s.audit| + 1
        && t.audit[|s.audit|].body == AuthorityFrozen(t.authorityEpoch, t.freezeEpoch, reason, requestId)
  {
    hide EpochsCounted, Chained;
  }
}
