/** `InMemoryAuthorityRepository`: the fields and methods of the source, each
    method proved to be the corresponding transition of the authority state. */
module AuthorityRepository {
  import opened Outcomes
  import opened HashChain
  import opened Authority
  import opened AuthorityRuns

  lemma ActiveIsKnown(h: Hash<AuditBody>, s: State)
    requires Invariant(h, s)
    ensures s.activeLeaseId.Some? ==> s.activeLeaseId.value in s.leases
    ensures s.frozen ==> s.activeLeaseId.None?
  {
  }

  class Repository {
    const hash: Hash<AuditBody>
    var authorityEpoch: int
    var freezeEpoch: int
    var frozen: bool
    var challenges: map<string, Challenge>
    var credentials: map<string, Credential>
    var leases: map<string, Lease>
    var activeLeaseId: Option<string>
    var interactions: map<string, Admission>
    var audit: seq<Link<AuditBody>>

    ghost function Current(): State
      reads this
    {
      State(authorityEpoch, freezeEpoch, frozen, challenges, credentials, leases, activeLeaseId, interactions, audit)
    }

    ghost predicate Valid()
      reads this
    {
      Invariant(hash, Current())
    }

    constructor (hash: Hash<AuditBody>)
      ensures this.hash == hash && Valid() && Current() == INITIAL
    {
      this.hash := hash;
      authorityEpoch, freezeEpoch, frozen := 1, 1, false;
      challenges, credentials, leases, activeLeaseId := map[], map[], map[], None;
      interactions, audit := map[], [];
      new;
      InvariantHolds(hash, []);
    }

    method AddChallenge(c: Challenge) returns (r: Result<(), Error>)
      requires Valid()
      modifies this`challenges
      ensures Valid()
      ensures After(Current(), r) == CreateChallenge(old(Current()), c)
    {
      ApplyKeepsInvariant(hash, Current(), OpCreate(c));
      if c.challengeId in challenges { return Err(ChallengeInvalid); }
      var seen := challenges.Keys;
      while seen != {}
        invariant seen <= challenges.Keys && challenges == old(challenges)
        invariant forall id :: id in challenges.Keys - seen ==> challenges[id].digest != c.digest
      {
        var id :| id in seen;
        if challenges[id].digest == c.digest { return Err(ChallengeInvalid); }
        seen := seen - {id};
      }
      challenges := challenges[c.challengeId := c];
      r := Ok(());
    }

    /** `_consume_challenge_locked`. */
    method Consume(id: string, digest: string, now: int) returns (r: Result<Challenge, Error>)
      requires Valid()
      modifies this`challenges
      ensures Valid()
      ensures After(Current(), r) == ConsumeChallenge(old(Current()), id, digest, now)
    {
      ApplyKeepsInvariant(hash, Current(), OpConsume(id, digest, now));
      if id !in challenges || challenges[id].digest != digest { return Err(ChallengeInvalid); }
      if challenges[id].consumedAt.Some? { return Err(ChallengeConsumed); }
      if now > challenges[id].expiresAt { return Err(ChallengeInvalid); }
      challenges := challenges[id := challenges[id].(consumedAt := Some(now))];
      r := Ok(challenges[id]);
    }

    method AppendAudit(body: AuditBody)
      modifies this`audit
      ensures audit == Append(hash, old(audit), body)
    {
      var sequence := |audit| + 1;
      var previous := if audit == [] then GENESIS else audit[|audit| - 1].eventHash;
      audit := audit + [Link(sequence, body, previous, hash(sequence, body, previous))];
    }

    /** `_revoke_active`. */
    method RevokeActiveLease(now: int, reason: string)
      requires activeLeaseId.Some? ==> activeLeaseId.value in leases
      modifies this`leases, this`activeLeaseId
      ensures leases == RevokeIn(old(leases), old(activeLeaseId), now, reason) && activeLeaseId.None?
    {
      if activeLeaseId.None? { return; }
      var active := leases[activeLeaseId.value];
      if active.revokedAt.None? {
        leases := leases[active.leaseId := active.(revokedAt := Some(now), revocationReason := reason)];
      }
      activeLeaseId := None;
    }

    /** `_issue_lease_locked`. */
    method Issue(request: LeaseRequest) returns (r: Result<Lease, Error>)
      requires Valid()
      modifies this`authorityEpoch, this`leases, this`activeLeaseId, this`audit
      ensures Valid()
      ensures After(Current(), r) == IssueLease(hash, old(Current()), request)
    {
      hide Invariant, RevokeIn, Append;
      ActiveIsKnown(hash, Current());
      IssueKeepsInvariant(hash, Current(), request);
      if frozen { return Err(AdmissionDenied); }
      if request.leaseId in leases { return Err(RepositoryError); }
      RevokeActiveLease(request.issuedAt, "replaced");
      authorityEpoch := authorityEpoch + 1;
      var lease := Lease(request.leaseId, authorityEpoch, request.commanderId, request.guildId,
                         request.channelScope, request.credentialId, request.issuedAt, request.expiresAt, None, "");
      leases := leases[lease.leaseId := lease];
      activeLeaseId := Some(lease.leaseId);
      AppendAudit(LeaseIssued(lease.authorityEpoch, lease.commanderId, lease.guildId, lease.leaseId));
      r := Ok(lease);
    }

    method Register(id: string, digest: string, credential: Credential, now: int) returns (r: Result<Credential, Error>)
      requires Valid()
      modifies this
      ensures Valid()
      ensures After(Current(), r) == CompleteRegistration(hash, old(Current()), id, digest, credential, now)
    {
      hide Invariant, Append;
      ApplyKeepsInvariant(hash, Current(), OpRegister(id, digest, credential, now));
      var consumed := Consume(id, digest, now);
      if consumed.Err? { return Err(consumed.error); }
      if credential.credentialId in credentials { return Err(RepositoryError); }
      credentials := credentials[credential.credentialId := credential];
      AppendAudit(CredentialEnrolled(
        credential.commanderId, credential.credentialId, credential.publicKey, credential.createdAt));
      r := Ok(credential);
    }

    method Authenticate(id: string, digest: string, credentialId: string, newSignCount: int, request: LeaseRequest, now: int)
      returns (r: Result<Lease, Error>)
      requires Valid()
      modifies this
      ensures Valid()
      ensures After(Current(), r) == CompleteAuthentication(hash, old(Current()), id, digest, credentialId, newSignCount, request, now)
    {
      ApplyKeepsInvariant(hash, Current(), OpAuthenticate(id, digest, credentialId, newSignCount, request, now));
      var consumed := Consume(id, digest, now);
      if consumed.Err? { return Err(consumed.error); }
      if credentialId !in credentials || credentials[credentialId].revokedAt.Some? { return Err(RepositoryError); }
      if newSignCount < credentials[credentialId].signCount { return Err(RepositoryError); }
      ghost var before := Current();
      credentials := credentials[credentialId := credentials[credentialId].(signCount := newSignCount)];
      UnrelatedChange(hash, before, Current());
      hide Invariant, IssueLease;
      r := Issue(request);
    }

    method Recover(id: string, digest: string, expectedFreezeEpoch: int, credentialId: string, newSignCount: int,
                   request: LeaseRequest, recoveryId: string, now: int)
      returns (r: Result<Lease, Error>)
      requires Valid()
      modifies this
      ensures Valid()
      ensures After(Current(), r) ==
        CompleteRecovery(hash, old(Current()), id, digest, expectedFreezeEpoch, credentialId, newSignCount, request, recoveryId, now)
    {
      ApplyKeepsInvariant(hash, Current(),
        OpRecover(id, digest, expectedFreezeEpoch, credentialId, newSignCount, request, recoveryId, now));
      var consumed := Consume(id, digest, now);
      if consumed.Err? { return Err(consumed.error); }
      if consumed.value.purpose != RECOVERY { return Err(ChallengeInvalid); }
      if !frozen || freezeEpoch != expectedFreezeEpoch { return Err(AdmissionDenied); }
      r := ClearFreeze(expectedFreezeEpoch, credentialId, newSignCount, request, recoveryId);
    }

    method ClearFreeze(expectedFreezeEpoch: int, credentialId: string, newSignCount: int,
                       request: LeaseRequest, recoveryId: string)
      returns (r: Result<Lease, Error>)
      requires Valid()
      modifies this
      ensures Valid()
      ensures After(Current(), r) == Thaw(hash, old(Current()), expectedFreezeEpoch, credentialId, newSignCount, request, recoveryId)
    {
      ThawKeepsInvariant(hash, Current(), expectedFreezeEpoch, credentialId, newSignCount, request, recoveryId);
      if credentialId !in credentials || credentials[credentialId].revokedAt.Some? { return Err(RepositoryError); }
      if newSignCount < credentials[credentialId].signCount { return Err(RepositoryError); }
      ghost var before := Current();
      credentials := credentials[credentialId := credentials[credentialId].(signCount := newSignCount)];
      frozen := false;
      UnrelatedChange(hash, before, Current());
      hide Invariant, IssueLease, Append;
      r := Issue(request);
      if r.Ok? {
        AppendAudit(AuthorityRecovered(r.value.authorityEpoch, expectedFreezeEpoch, recoveryId));
      }
    }

    method AdmitInteraction(request: AdmissionRequest) returns (r: Result<AdmissionReceipt, Error>)
      requires Valid()
      modifies this`interactions
      ensures Valid()
      ensures After(Current(), r) == Admit(old(Current()), request)
      ensures request.interactionId !in old(interactions) ==>
        (r.Ok? <==>
          && !frozen && request.leaseId in leases && leases[request.leaseId].revokedAt.None?
          && leases[request.leaseId].authorityEpoch == authorityEpoch == request.authorityEpoch
          && leases[request.leaseId].commanderId == request.commanderId
          && leases[request.leaseId].guildId == request.guildId
          && leases[request.leaseId].channelScope == request.channelScope
          && request.receivedAt < leases[request.leaseId].expiresAt)
      ensures r.Ok? && request.interactionId !in old(interactions) ==>
        activeLeaseId == Some(request.leaseId) && r.value.authorityEpoch == authorityEpoch && !r.value.duplicate
    {
      ApplyKeepsInvariant(hash, Current(), OpAdmit(request));
      if request.interactionId in interactions {
        var known := interactions[request.interactionId];
        if known.requestDigest != request.requestDigest { return Err(AdmissionDenied); }
        return Ok(known.receipt.(duplicate := true));
      }
      if frozen { return Err(AdmissionDenied); }
      if request.leaseId !in leases { return Err(AdmissionDenied); }
      var lease := leases[request.leaseId];
      if lease.revokedAt.Some? || lease.authorityEpoch != authorityEpoch
         || lease.authorityEpoch != request.authorityEpoch || lease.commanderId != request.commanderId
         || lease.guildId != request.guildId || lease.channelScope != request.channelScope
         || request.receivedAt >= lease.expiresAt {
        return Err(AdmissionDenied);
      }
      var receipt := AdmissionReceipt(
        request.interactionId, lease.authorityEpoch, lease.leaseId, "discord-" + request.interactionId, false);
      interactions := interactions[request.interactionId := Admission(request.requestDigest, receipt)];
      r := Ok(receipt);
    }

    method FreezeAuthority(requestId: string, reason: string, now: int) returns (epochs: (int, int))
      requires Valid()
      modifies this
      ensures Valid() && frozen && activeLeaseId.None?
      ensures Current() == Freeze(hash, old(Current()), requestId, reason, now)
      ensures epochs == (authorityEpoch, freezeEpoch)
    {
      hide Invariant, RevokeIn, Append;
      ActiveIsKnown(hash, Current());
      FreezeKeepsInvariant(hash, Current(), requestId, reason, now);
      if !frozen {
        authorityEpoch := authorityEpoch + 1;
        freezeEpoch := freezeEpoch + 1;
        frozen := true;
        RevokeActiveLease(now, reason);
        AppendAudit(AuthorityFrozen(authorityEpoch, freezeEpoch, reason, requestId));
      }
      epochs := (authorityEpoch, freezeEpoch);
    }

    method ActiveLease() returns (r: Option<Lease>)
      requires Valid()
      ensures match r
        case Some(lease) => lease.leaseId in leases && leases[lease.leaseId] == lease && lease.revokedAt.None?
                            && lease.authorityEpoch == authorityEpoch && !frozen
        case None => forall k :: k in leases ==> leases[k].revokedAt.Some?
    {
      if activeLeaseId.None? { return None; }
      var lease := leases[activeLeaseId.value];
      r := if lease.revokedAt.Some? then None else Some(lease);
    }
  }
}
