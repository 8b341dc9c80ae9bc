/** What one ceremony does to the authority: which challenges it accepts, what an
    anomaly leads to, and that a recovery nobody disturbs goes through. */
module CeremonyOutcomes {
  import opened Outcomes
  import opened HashChain
  import opened Authority
  import opened AuthorityRuns
  import opened AuthorityDecisions
  import opened Ceremonies
  import AuthorityReplay

  /** A challenge is taken up exactly for the purpose it was made for, a recovery's
      only if its stored payload still has the digest it was stored under. */
  lemma LoadsExactly(c: Service, w: World, t: nat, id: string)
    requires t !in w.tasks
    ensures var tasks := Ceremonies.Apply(c, w, Load(t, id)).tasks;
      && (t in tasks <==>
            && id in w.repo.challenges
            && var ch := w.repo.challenges[id];
               || ch.purpose == "lease" || ch.purpose == "bootstrap-registration"
               || (ch.purpose == "recovery" && ch.payload.Some? && c.payloadDigest(ch.payload.value) == ch.payloadDigest))
      && (t in tasks ==>
            var ch := w.repo.challenges[id];
            tasks[t] == if ch.purpose == "recovery" then RecoveryLoaded(ch)
                        else if ch.purpose == "lease" then LeaseLoaded(ch) else RegistrationLoaded(ch))
    ensures Ceremonies.Apply(c, w, Load(t, id)).repo == w.repo
  {
  }

  /** An answer from another credential, or with a counter that went back, leaves
      the authority frozen and issues nothing. */
  lemma AnomalyFreezes(c: Service, w: World, step: Step)
    requires Invariant(c.hash, w.repo) && step.Complete? && step.task in w.tasks
    requires var t := w.tasks[step.task];
      && (t.LeaseReady? || (t.RecoveryReady? && t.challenge.payload.Some?))
      && (step.verified.credentialId != t.credential.credentialId || step.verified.signCount < t.credential.signCount)
    ensures var after := Ceremonies.Apply(c, w, step).repo;
      && after.frozen && after.activeLeaseId == None && after.leases.Keys == w.repo.leases.Keys
      && after.challenges == w.repo.challenges && after.credentials == w.repo.credentials
      && after.freezeEpoch == w.repo.freezeEpoch + (if w.repo.frozen then 0 else 1)
  {
    var op := CompletionOp(c, w.tasks[step.task], step).value;
    FreezesExactly(c.hash, w.repo, op.requestId, op.reason, op.now);
    hide Freeze;
  }

  // ----- Leases carry the service's own terms -----------------------------------------

  /** The step that asked for lease `k`. */
  predicate AskedFor(c: Service, step: Step, lease: Lease) {
    || (step.Elsewhere? && step.op.OpIssue? && step.op.lease.leaseId == lease.leaseId)
    || (&& step.Complete? && step.leaseId == lease.leaseId && lease.commanderId == c.commanderId
        && lease.guildId == c.guildId && lease.channelScope == c.channelScope
        && lease.issuedAt == step.now && lease.expiresAt == step.now + c.leaseTtl
        && lease.credentialId == step.verified.credentialId)
  }

  predicate HasTerms(lease: Lease, r: LeaseRequest) {
    && lease.leaseId == r.leaseId && lease.commanderId == r.commanderId && lease.guildId == r.guildId
    && lease.channelScope == r.channelScope && lease.credentialId == r.credentialId
    && lease.issuedAt == r.issuedAt && lease.expiresAt == r.expiresAt
  }

  lemma NewLeaseHasTerms(h: Hash<AuditBody>, s: State, op: Op, k: string)
    requires k in Authority.Apply(h, s, op).leases && k !in s.leases && Invariant(h, s)
    ensures (op.OpIssue? || op.OpAuthenticate? || op.OpRecover?) && HasTerms(Authority.Apply(h, s, op).leases[k], op.lease)
  {
    AuthorityReplay.NewLeasesAreRequested(h, s, op, k);
    hide Append, Chained, Count;
  }

  lemma NewLeaseWasAskedFor(c: Service, w: World, step: Step, k: string)
    requires Invariant(c.hash, w.repo) && k !in w.repo.leases && k in Ceremonies.Apply(c, w, step).repo.leases
    ensures AskedFor(c, step, Ceremonies.Apply(c, w, step).repo.leases[k])
  {
    var op := CallOf(c, w, step).value;
    NewLeaseHasTerms(c.hash, w.repo, op, k);
    assert Ceremonies.Apply(c, w, step).repo == Authority.Apply(c.hash, w.repo, op);
    hide Authority.Apply, Invariant, Ceremonies.Apply;
    LeaseOpsCarryServiceTerms(c, w, step);
  }

  lemma LeaseOpsCarryServiceTerms(c: Service, w: World, step: Step)
    requires CallOf(c, w, step).Some?
    ensures var op := CallOf(c, w, step).value;
      && (op.OpIssue? ==> step == Elsewhere(op))
      && (op.OpAuthenticate? || op.OpRecover? ==>
            step.Complete? && op.lease == ServiceLease(c, step.leaseId, step.verified.credentialId, step.now))
  {
  }

  lemma OldLeaseKeepsTerms(c: Service, w: World, step: Step, k: string, asked: Step)
    requires Invariant(c.hash, w.repo) && k in w.repo.leases && AskedFor(c, asked, w.repo.leases[k])
    ensures k in Ceremonies.Apply(c, w, step).repo.leases
    ensures AskedFor(c, asked, Ceremonies.Apply(c, w, step).repo.leases[k])
  {
    var call := CallOf(c, w, step);
    if call.Some? { ApplyContinues(c.hash, w.repo, call.value); }
    hide Authority.Apply, Invariant, Advance, Consumes, CallOf;
  }

  /** In every interleaving a lease that no operator issued directly is for the
      service's commander, guild and channels, runs for the service's lifetime, and
      is tied to the credential that answered. */
  lemma {:induction false} EveryLeaseHasServiceTerms(c: Service, steps: seq<Step>, k: string) returns (n: nat)
    requires k in Ceremonies.Run(c, steps).repo.leases
    ensures n < |steps| && AskedFor(c, steps[n], Ceremonies.Run(c, steps).repo.leases[k])
  {
    var last := |steps| - 1;
    var w, step := Ceremonies.Run(c, steps[..last]), steps[last];
    HonestHolds(c, steps[..last]);
    hide Ceremonies.Apply, AskedFor;
    if k in w.repo.leases {
      n := EveryLeaseHasServiceTerms(c, steps[..last], k);
      OldLeaseKeepsTerms(c, w, step, k, steps[n]);
    } else {
      n := last;
      NewLeaseWasAskedFor(c, w, step, k);
    }
  }

  // ----- A recovery nobody disturbs -----------------------------------------------------

  /** Beginning under a freeze stores a challenge for exactly that freeze. */
  lemma BeginningStoresChallenge(c: Service, w: World, t: nat, cred: string, store: Step) returns (after: World)
    requires w.repo.frozen && t !in w.tasks && Available(w.repo, cred) && store.BeginRecoveryStore? && store.task == t
    requires forall id :: id in w.repo.challenges ==> id != store.challengeId && w.repo.challenges[id].digest != store.digest
    ensures after == ThreeSteps(c, w, BeginRecovery(t), BeginRecoveryCredential(t, cred), store)
    ensures t !in after.tasks && after.cleared == w.cleared
    ensures exists ch :: && after.repo == w.repo.(challenges := w.repo.challenges[store.challengeId := ch])
                         && ch.challengeId == store.challengeId && ch.digest == store.digest && ch.purpose == "recovery"
                         && ch.expiresAt == store.now + c.challengeTtl && ch.consumedAt == None
                         && ch.payload.Some? && ch.payload.value.freezeEpoch == w.repo.freezeEpoch
                         && ch.payload.value.requestId == store.requestId
                         && c.payloadDigest(ch.payload.value) == ch.payloadDigest
  {
    var begun := Ceremonies.Apply(c, w, BeginRecovery(t));
    var chosen := Ceremonies.Apply(c, begun, BeginRecoveryCredential(t, cred));
    after := Ceremonies.Apply(c, chosen, store);
    var ch := RecoveryChallenge(c, w.repo.freezeEpoch, store);
    CreatesExactly(w.repo, ch);
    hide CreateChallenge;
    assert after.repo == w.repo.(challenges := w.repo.challenges[store.challengeId := ch]);
  }

  lemma GetsReady(c: Service, w: World, t: nat, id: string, cred: string)
    requires t !in w.tasks && Available(w.repo, cred) && id in w.repo.challenges
    requires var ch := w.repo.challenges[id];
             ch.purpose == "recovery" && ch.payload.Some? && c.payloadDigest(ch.payload.value) == ch.payloadDigest
    ensures var ready := Ceremonies.Apply(c, Ceremonies.Apply(c, w, Load(t, id)), ReadCredential(t, cred));
            && ready.repo == w.repo && ready.cleared == w.cleared && t in ready.tasks
            && ready.tasks[t] == RecoveryReady(w.repo.challenges[id], w.repo.credentials[cred])
  {
  }

  /** Answering with a usable credential in time lifts the freeze. */
  lemma CompletingLifts(c: Service, w: World, step: Step)
    requires Invariant(c.hash, w.repo) && w.repo.frozen && step.Complete? && step.task in w.tasks
    requires w.tasks[step.task].RecoveryReady? && step.leaseId !in w.repo.leases
    requires var ch, cred := w.tasks[step.task].challenge, w.tasks[step.task].credential;
      && ch.purpose == "recovery" && ch.payload.Some? && ch.payload.value.freezeEpoch == w.repo.freezeEpoch
      && ChallengeOpen(w.repo, ch.challengeId, ch.digest, step.now) && w.repo.challenges[ch.challengeId].purpose == "recovery"
      && step.verified.credentialId == cred.credentialId && cred.signCount <= step.verified.signCount
      && CounterHolds(w.repo, cred.credentialId, step.verified.signCount)
    ensures var after := Ceremonies.Apply(c, w, step);
      && !after.repo.frozen && after.repo.freezeEpoch == w.repo.freezeEpoch
      && LeaseGranted(w.repo, after.repo, ServiceLease(c, step.leaseId, step.verified.credentialId, step.now))
      && after.cleared == w.cleared + [Clearing(Some(w.tasks[step.task].challenge.challengeId), w.repo.freezeEpoch)]
  {
    var op := CompletionOp(c, w.tasks[step.task], step).value;
    RecoversExactly(c.hash, w.repo, op.id, op.digest, op.expectedFreezeEpoch, op.credentialId, op.newSignCount, op.lease,
                    op.recoveryId, op.now);
    hide CompleteRecovery, Invariant, LeaseGranted, Advance, Consumes;
  }

  lemma RecoveryFromHere(c: Service, w: World, cred: string, store: Step, done: Step) returns (after: World)
    requires Honest(c, w) && CredentialsKeyed(w.repo) && InTime(c, w, cred, store, done)
    ensures after == RunFrom(c, w, RecoverySteps(cred, store, done))
    ensures !after.repo.frozen && after.repo.freezeEpoch == w.repo.freezeEpoch
    ensures after.repo.activeLeaseId == Some(done.leaseId) && done.leaseId in after.repo.leases
    ensures HasTerms(after.repo.leases[done.leaseId], ServiceLease(c, done.leaseId, cred, done.now))
    ensures after.cleared == w.cleared + [Clearing(Some(store.challengeId), w.repo.freezeEpoch)]
  {
    var t := done.task;
    var stored := BeginningStoresChallenge(c, w, t, cred, store);
    GetsReady(c, stored, t, store.challengeId, cred);
    var ready := Ceremonies.Apply(c, Ceremonies.Apply(c, stored, Load(t, store.challengeId)), ReadCredential(t, cred));
    UnrelatedChange(c.hash, w.repo, ready.repo);
    after := Ceremonies.Apply(c, ready, done);
    CompletingLifts(c, ready, done);
    SixSteps(c, w, BeginRecovery(t), BeginRecoveryCredential(t, cred), store, Load(t, store.challengeId),
             ReadCredential(t, cred), done);
    hide Ceremonies.Apply, Honest, Invariant;
  }

  /** One recovery, from the freeze check to the answer. */
  function RecoverySteps(cred: string, store: Step, done: Step): seq<Step>
    requires store.BeginRecoveryStore? && done.Complete?
  {
    var t := done.task;
    [BeginRecovery(t), BeginRecoveryCredential(t, cred), store, Load(t, store.challengeId), ReadCredential(t, cred), done]
  }

  /** The freeze is on, the credential usable, ids and digest new, and the answer
      comes before the challenge expires with a counter that did not go back. */
  ghost predicate InTime(c: Service, w: World, cred: string, store: Step, done: Step) {
    && w.repo.frozen && store.BeginRecoveryStore? && done.Complete? && store.task == done.task && done.task !in w.tasks
    && cred in w.repo.credentials && w.repo.credentials[cred].revokedAt == None
    && (forall id :: id in w.repo.challenges ==> id != store.challengeId && w.repo.challenges[id].digest != store.digest)
    && done.now <= store.now + c.challengeTtl && done.leaseId !in w.repo.leases
    && done.verified.credentialId == cred && w.repo.credentials[cred].signCount <= done.verified.signCount
  }

  /** After any run, a recovery begun under the freeze and answered in time, with
      nothing in between, lifts that freeze and leaves a live lease with the
      service's terms. */
  lemma UndisturbedRecoveryLifts(c: Service, steps: seq<Step>, cred: string, store: Step, done: Step)
    requires InTime(c, Ceremonies.Run(c, steps), cred, store, done)
    ensures var w, after := Ceremonies.Run(c, steps), Ceremonies.Run(c, steps + RecoverySteps(cred, store, done));
      && !after.repo.frozen && after.repo.freezeEpoch == w.repo.freezeEpoch
      && after.repo.activeLeaseId == Some(done.leaseId) && done.leaseId in after.repo.leases
      && HasTerms(after.repo.leases[done.leaseId], ServiceLease(c, done.leaseId, cred, done.now))
      && after.cleared == w.cleared + [Clearing(Some(store.challengeId), w.repo.freezeEpoch)]
  {
    HonestHolds(c, steps);
    CredentialsStayKeyed(c, steps);
    RunsOn(c, steps, RecoverySteps(cred, store, done));
    hide InTime, Honest, RunFrom, Ceremonies.Run;
    var _ := RecoveryFromHere(c, Ceremonies.Run(c, steps), cred, store, done);
  }

  ghost predicate CredentialsKeyed(s: State) {
    forall k :: k in s.credentials ==> s.credentials[k].credentialId == k
  }

  lemma StepKeepsKeyed(h: Hash<AuditBody>, s: State, op: Op)
    requires CredentialsKeyed(s)
    ensures CredentialsKeyed(Authority.Apply(h, s, op))
  {
    hide Append, RevokeIn;
  }

  lemma {:induction false} CredentialsStayKeyed(c: Service, steps: seq<Step>)
    ensures CredentialsKeyed(Ceremonies.Run(c, steps).repo)
  {
    if steps != [] {
      var last := |steps| - 1;
      CredentialsStayKeyed(c, steps[..last]);
      var call := CallOf(c, Ceremonies.Run(c, steps[..last]), steps[last]);
      if call.Some? { StepKeepsKeyed(c.hash, Ceremonies.Run(c, steps[..last]).repo, call.value); }
      hide Authority.Apply, CredentialsKeyed, CallOf, Advance;
    }
  }

  lemma {:induction false} RunsOn(c: Service, steps: seq<Step>, more: seq<Step>)
    ensures Ceremonies.Run(c, steps + more) == RunFrom(c, Ceremonies.Run(c, steps), more)
    decreases |more|
  {
    if more == [] {
      assert steps + more == steps;
    } else {
      assert (steps + [more[0]])[..|steps|] == steps;
      assert steps + [more[0]] + more[1..] == steps + more;
      hide Ceremonies.Apply;
      RunsOn(c, steps + [more[0]], more[1..]);
    }
  }

  function RunFrom(c: Service, w: World, steps: seq<Step>): World
    decreases |steps|
  {
    if steps == [] then w else RunFrom(c, Ceremonies.Apply(c, w, steps[0]), steps[1..])
  }

  lemma SixSteps(c: Service, w: World, s1: Step, s2: Step, s3: Step, s4: Step, s5: Step, s6: Step)
    ensures RunFrom(c, w, [s1, s2, s3, s4, s5, s6])
         == Ceremonies.Apply(c, Ceremonies.Apply(c, Ceremonies.Apply(c, ThreeSteps(c, w, s1, s2, s3), s4), s5), s6)
  {
    hide Ceremonies.Apply;
    LastThree(c, ThreeSteps(c, w, s1, s2, s3), s4, s5, s6);
    assert [s1, s2, s3, s4, s5, s6][1..] == [s2, s3, s4, s5, s6];
    assert [s2, s3, s4, s5, s6][1..] == [s3, s4, s5, s6];
    assert [s3, s4, s5, s6][1..] == [s4, s5, s6];
    var w2 := Ceremonies.Apply(c, Ceremonies.Apply(c, w, s1), s2);
    assert RunFrom(c, w2, [s3, s4, s5, s6]) == RunFrom(c, Ceremonies.Apply(c, w2, s3), [s4, s5, s6]);
  }

  lemma LastThree(c: Service, w: World, s1: Step, s2: Step, s3: Step)
    ensures RunFrom(c, w, [s1, s2, s3]) == ThreeSteps(c, w, s1, s2, s3)
  {
    hide Ceremonies.Apply;
    assert [s1, s2, s3][1..] == [s2, s3] && [s2, s3][1..] == [s3] && [s3][1..] == [];
    var w2 := Ceremonies.Apply(c, Ceremonies.Apply(c, w, s1), s2);
    assert RunFrom(c, w2, [s3]) == RunFrom(c, Ceremonies.Apply(c, w2, s3), []);
  }

  function ThreeSteps(c: Service, w: World, s1: Step, s2: Step, s3: Step): World {
    Ceremonies.Apply(c, Ceremonies.Apply(c, Ceremonies.Apply(c, w, s1), s2), s3)
  }
}
